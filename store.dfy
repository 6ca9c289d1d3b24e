/**
 * The three JSON documents the moderation commands keep on disk, as values.
 *
 *   warns   : guild key -> member key -> reasons, in the order they were issued
 *   mutes   : guild key -> member key -> role ids saved when the member was muted
 *   options : guild key -> per-guild configuration record
 *
 * Every command reads a document whole, changes it and writes it whole, so
 * each change is a function from the old document to the new one. Keys are
 * the decimal strings of platform ids (`str(ctx.guild.id)`, `str(member.id)`).
 */
module Store {

  datatype Option<+T> = None | Some(value: T)

  type Key = string
  type RoleId = nat
  type ChannelId = nat
  type Reason = string

  type WarnsDoc = map<Key, map<Key, seq<Reason>>>
  type MutesDoc = map<Key, map<Key, seq<RoleId>>>
  type OptionsDoc = map<Key, GuildOptions>

  /** One guild's entry in the options document; JSON `null` is `None`. */
  datatype GuildOptions = GuildOptions(
    prefix: string,
    publicLog: Option<ChannelId>,
    privateLog: Option<ChannelId>,
    modRole: Option<RoleId>,
    mutedRole: Option<RoleId>)

  /** Reason used when a command is given none. */
  const DefaultReason: Reason := "No reason was provided."

  /** The record `mute` inserts for a guild the options document does not know. */
  const DefaultOptions := GuildOptions(".", None, None, None, None)

  /* ---------------------------------------------------------------------- */
  /* Warning ledger                                                          */
  /* ---------------------------------------------------------------------- */

  /** The reason that is recorded: the one given, or the default. */
  function ReasonOrDefault(given: Option<Reason>): (r: Reason)
    ensures given.Some? ==> r == given.value
    ensures given.None? ==> r == DefaultReason
  {
    match given
    case Some(text) => text
    case None => DefaultReason
  }

  /** A member's warnings; a missing guild or member key reads as none. */
  function Entries(w: WarnsDoc, g: Key, m: Key): (r: seq<Reason>)
    ensures g in w && m in w[g] ==> r == w[g][m]
    ensures r != [] ==> g in w && m in w[g]
  {
    if g in w && m in w[g] then w[g][m] else []
  }

  /** `warn`: append `reason` to the member's list, creating keys on the way. */
  function WithWarning(w: WarnsDoc, g: Key, m: Key, reason: Reason): (w': WarnsDoc)
    ensures g in w' && m in w'[g]
    ensures Entries(w', g, m) == Entries(w, g, m) + [reason]
    ensures w'.Keys == w.Keys + {g}
    ensures w'[g].Keys == (if g in w then w[g].Keys else {}) + {m}
    ensures forall g2, m2 :: g2 != g || m2 != m ==> Entries(w', g2, m2) == Entries(w, g2, m2)
    ensures forall g2 :: g2 != g && g2 in w ==> w'[g2] == w[g2]
  {
    var guild := if g in w then w[g] else map[];
    var list := if m in guild then guild[m] else [];
    w[g := guild[m := list + [reason]]]
  }

  /** A run of `warn` commands on one member, oldest reason first. */
  function WarnAll(w: WarnsDoc, g: Key, m: Key, reasons: seq<Reason>): WarnsDoc
    decreases |reasons|
  {
    if reasons == [] then w else WarnAll(WithWarning(w, g, m, reasons[0]), g, m, reasons[1..])
  }

  /** Reasons issued one after another are listed in the order issued. */
  lemma {:induction false} WarnAllListsInOrder(w: WarnsDoc, g: Key, m: Key, reasons: seq<Reason>)
    ensures Entries(WarnAll(w, g, m, reasons), g, m) == Entries(w, g, m) + reasons
    decreases |reasons|
  {
    if reasons != [] {
      var w1 := WithWarning(w, g, m, reasons[0]);
      WarnAllListsInOrder(w1, g, m, reasons[1..]);
      assert reasons == [reasons[0]] + reasons[1..];
    }
  }

  /** On a member with no warnings, n `warn` commands list exactly those n reasons. */
  lemma FreshMemberListsExactly(w: WarnsDoc, g: Key, m: Key, reasons: seq<Reason>)
    requires g !in w || m !in w[g]
    ensures Entries(WarnAll(w, g, m, reasons), g, m) == reasons
  {
    WarnAllListsInOrder(w, g, m, reasons);
  }

  /** The 1-based bounds test of `clearwarn`: `len(list) >= warn_id > 0`. */
  predicate ValidWarnId(count: nat, id: int)
    ensures ValidWarnId(count, id) <==> 0 <= id - 1 < count
  {
    count >= id > 0
  }

  /** `clearwarn`: drop the entry at 1-based position `id`; later ones move down. */
  function WithoutWarning(w: WarnsDoc, g: Key, m: Key, id: int): (w': WarnsDoc)
    requires g in w && m in w[g] && ValidWarnId(|w[g][m]|, id)
    ensures g in w' && m in w'[g]
    ensures |Entries(w', g, m)| == |Entries(w, g, m)| - 1
    ensures forall i :: 0 <= i < id - 1 ==> Entries(w', g, m)[i] == Entries(w, g, m)[i]
    ensures forall i :: id - 1 <= i < |Entries(w', g, m)| ==> Entries(w', g, m)[i] == Entries(w, g, m)[i + 1]
    ensures w'.Keys == w.Keys && w'[g].Keys == w[g].Keys
    ensures forall g2, m2 :: g2 != g || m2 != m ==> Entries(w', g2, m2) == Entries(w, g2, m2)
    ensures forall g2 :: g2 != g && g2 in w ==> w'[g2] == w[g2]
  {
    var list := w[g][m];
    w[g := w[g][m := list[..id - 1] + list[id..]]]
  }

  /** The entry removed by `clearwarn` is the one listed as 'Warning #id'. */
  lemma {:induction false} ClearRemovesListedEntry(w: WarnsDoc, g: Key, m: Key, id: int)
    requires g in w && m in w[g] && ValidWarnId(|w[g][m]|, id)
    ensures Entries(WithoutWarning(w, g, m, id), g, m) == w[g][m][..id - 1] + w[g][m][id..]
    ensures multiset(Entries(WithoutWarning(w, g, m, id), g, m)) + multiset{Entries(w, g, m)[id - 1]}
            == multiset(Entries(w, g, m))
  {
    var list := w[g][m];
    assert list == list[..id - 1] + [list[id - 1]] + list[id..];
    assert Entries(WithoutWarning(w, g, m, id), g, m) == list[..id - 1] + list[id..];
  }

  /** Clearing the newest warning of a member that had an entry undoes `warn`. */
  lemma {:induction false} ClearUndoesWarn(w: WarnsDoc, g: Key, m: Key, reason: Reason)
    requires g in w && m in w[g]
    ensures var w1 := WithWarning(w, g, m, reason);
            ValidWarnId(|w1[g][m]|, |w[g][m]| + 1) && WithoutWarning(w1, g, m, |w[g][m]| + 1) == w
  {
    var w1 := WithWarning(w, g, m, reason);
    var list := w[g][m];
    assert w1[g][m] == list + [reason];
    var w2 := WithoutWarning(w1, g, m, |list| + 1);
    assert (list + [reason])[..|list|] == list;
    assert w2[g][m] == list;
    assert w2[g] == w[g];
  }

  /* ---------------------------------------------------------------------- */
  /* Mute records                                                            */
  /* ---------------------------------------------------------------------- */

  /** A member is muted exactly when the mutes document holds a record for them. */
  predicate IsMuted(mutes: MutesDoc, g: Key, m: Key)
  {
    g in mutes && m in mutes[g]
  }

  /** A successful `mute`: record the saved role ids, creating the guild entry if needed. */
  function WithMute(mutes: MutesDoc, g: Key, m: Key, saved: seq<RoleId>): (r: MutesDoc)
    requires !IsMuted(mutes, g, m)
    ensures IsMuted(r, g, m) && r[g][m] == saved
    ensures r.Keys == mutes.Keys + {g}
    ensures forall g2, m2 :: g2 != g || m2 != m ==>
              (IsMuted(r, g2, m2) <==> IsMuted(mutes, g2, m2)) &&
              (IsMuted(mutes, g2, m2) ==> r[g2][m2] == mutes[g2][m2])
  {
    var guild := if g in mutes then mutes[g] else map[];
    mutes[g := guild[m := saved]]
  }

  /** `unmute`: pop the member's record; the guild entry stays, possibly empty. */
  function WithoutMute(mutes: MutesDoc, g: Key, m: Key): (r: MutesDoc)
    requires IsMuted(mutes, g, m)
    ensures !IsMuted(r, g, m)
    ensures r.Keys == mutes.Keys
    ensures forall g2, m2 :: g2 != g || m2 != m ==>
              (IsMuted(r, g2, m2) <==> IsMuted(mutes, g2, m2)) &&
              (IsMuted(mutes, g2, m2) ==> r[g2][m2] == mutes[g2][m2])
  {
    mutes[g := mutes[g] - {m}]
  }

  /**
   * Mute then unmute: the record hands back exactly the saved ids, and the
   * document returns to what it was, except that a guild seen for the first
   * time keeps an empty entry.
   */
  lemma {:induction false} MuteUnmuteRoundTrip(mutes: MutesDoc, g: Key, m: Key, saved: seq<RoleId>)
    requires !IsMuted(mutes, g, m)
    ensures WithMute(mutes, g, m, saved)[g][m] == saved
    ensures WithoutMute(WithMute(mutes, g, m, saved), g, m)
            == if g in mutes then mutes else mutes[g := map[]]
  {
    var r := WithoutMute(WithMute(mutes, g, m, saved), g, m);
    if g in mutes {
      assert r[g] == mutes[g];
    } else {
      assert r[g] == map[];
    }
  }

  /** Python's `list.remove(x)`: drop the first occurrence of `x`. */
  function RemoveFirst(s: seq<RoleId>, x: RoleId): (r: seq<RoleId>)
    requires x in s
    ensures |r| == |s| - 1
    ensures multiset(r) == multiset(s) - multiset{x}
    decreases |s|
  {
    assert s == [s[0]] + s[1..];
    if s[0] == x then s[1..]
    else
      assert x in s[1..];
      [s[0]] + RemoveFirst(s[1..], x)
  }

  /** Every element of `s` other than `x`, in order. */
  function Except(s: seq<RoleId>, x: RoleId): seq<RoleId>
    decreases |s|
  {
    if s == [] then []
    else if s[0] == x then Except(s[1..], x)
    else [s[0]] + Except(s[1..], x)
  }

  /** No role appears twice in a member's role list. */
  predicate Distinct(s: seq<RoleId>)
  {
    forall i, j :: 0 <= i < j < |s| ==> s[i] != s[j]
  }

  /**
   * What `mute` saves, for a role list without repeats that holds the
   * guild's default role: all the other roles, in their original order.
   */
  lemma {:induction false} SavedRolesAreTheOthers(s: seq<RoleId>, defaultRole: RoleId)
    requires defaultRole in s && Distinct(s)
    ensures RemoveFirst(s, defaultRole) == Except(s, defaultRole)
    ensures defaultRole !in RemoveFirst(s, defaultRole)
    decreases |s|
  {
    if s[0] == defaultRole {
      ExceptAbsent(s[1..], defaultRole);
    } else {
      assert Distinct(s[1..]) by {
        forall i, j | 0 <= i < j < |s| - 1 ensures s[1..][i] != s[1..][j] {
          assert s[1..][i] == s[i + 1] && s[1..][j] == s[j + 1];
        }
      }
      SavedRolesAreTheOthers(s[1..], defaultRole);
    }
  }

  lemma {:induction false} ExceptAbsent(s: seq<RoleId>, x: RoleId)
    requires x !in s
    ensures Except(s, x) == s
    decreases |s|
  {
    if s != [] {
      ExceptAbsent(s[1..], x);
    }
  }

  /* ---------------------------------------------------------------------- */
  /* Options                                                                 */
  /* ---------------------------------------------------------------------- */

  /** `mute` caches the muted role's id, inserting the defaults for a new guild. */
  function WithMutedRole(options: OptionsDoc, g: Key, role: RoleId): (r: OptionsDoc)
    ensures g in r && r[g].mutedRole == Some(role)
    ensures g in options ==> r[g] == options[g].(mutedRole := Some(role))
    ensures g !in options ==> r[g] == DefaultOptions.(mutedRole := Some(role))
    ensures r.Keys == options.Keys + {g}
    ensures forall g2 :: g2 != g && g2 in options ==> r[g2] == options[g2]
  {
    var entry := if g in options then options[g] else DefaultOptions;
    options[g := entry.(mutedRole := Some(role))]
  }

  /**
   * The gate every command checks before posting to the public log: the
   * guild has an options entry and its `public_log` value is truthy
   * (a JSON `null` and the id 0 are both falsy in Python).
   */
  predicate PublicLogConfigured(options: OptionsDoc, g: Key)
    ensures g !in options ==> !PublicLogConfigured(options, g)
    ensures g in options && options[g].publicLog.None? ==> !PublicLogConfigured(options, g)
    ensures PublicLogConfigured(options, g) <==>
              g in options && options[g].publicLog.Some? && options[g].publicLog.value > 0
  {
    g in options && options[g].publicLog.Some? && options[g].publicLog.value != 0
  }

  /**
   * Caching the muted role never opens the log gate: a new guild gets
   * `public_log` null, and for every other case the gate is unchanged.
   */
  lemma MutedRoleKeepsLogGate(options: OptionsDoc, g: Key, role: RoleId, g2: Key)
    ensures g !in options ==> !PublicLogConfigured(WithMutedRole(options, g, role), g)
    ensures g in options || g2 != g ==>
              (PublicLogConfigured(WithMutedRole(options, g, role), g2) <==> PublicLogConfigured(options, g2))
  {
  }

  /**
   * The configured muted role, when `get_role` finds it among the guild's
   * roles; `None` means `mute` has to create one.
   */
  function ConfiguredMutedRole(options: OptionsDoc, g: Key, guildRoles: set<RoleId>): (r: Option<RoleId>)
    ensures r.Some? <==> g in options && options[g].mutedRole.Some? && options[g].mutedRole.value in guildRoles
    ensures r.Some? ==> r.value in guildRoles && options[g].mutedRole == r
  {
    if g in options then
      match options[g].mutedRole
      case Some(id) => if id in guildRoles then Some(id) else None
      case None => None
    else None
  }

  /** Once a role is cached and still exists, the next `mute` reuses it and creates none. */
  lemma CachedMutedRoleIsReused(options: OptionsDoc, g: Key, role: RoleId, guildRoles: set<RoleId>)
    requires role in guildRoles
    ensures ConfiguredMutedRole(WithMutedRole(options, g, role), g, guildRoles) == Some(role)
  {
  }
}
