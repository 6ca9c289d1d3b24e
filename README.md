# Moderation state of the ServerAntiRaid bot, in Dafny

The moderation cog of this chat-server bot keeps three JSON documents:

- **warns**: guild key → member key → the warning reasons, in the order they were issued;
- **mutes**: guild key → member key → the role ids a member had when muted;
- **options**: guild key → `{prefix, public_log, private_log, mod_role, muted_role}`.

Each command reads a document whole, changes it in memory and writes it back whole.
This project models that state and the commands that change it:

- `warn`, `warnings` and `clearwarn` (the warning ledger);
- `mute`, `unmute` and `create_muted_role` (saving a member's roles, swapping them for a "Muted" role, handing them back);
- the check "is a public log channel configured?" that every command runs before posting a log message;
- the way `unban` turns its text argument into a user.

Layout:

- `store.dfy`, module `Store`: the documents as Dafny maps. Each change a command makes is a function from the old document to the new one. The lemmas relate these functions: warnings listed in the order issued, clear-after-warn, the mute/unmute round trip, and which roles are saved.
- `moderation.dfy`, module `Moderation`: class `ModerationCog`. It holds the three documents and an ordered `effects` log. Its methods are the five commands. Each method states the new value of every field and what it returns.
- `unban.dfy`, module `Unban`: the digit test, the decimal value of the argument, and the first-match search over the ban list.

The platform's answers are parameters:

- the guild's role ids, which `get_role` looks up;
- the member's roles;
- the guild default role;
- what `create_role` returned (`None` when it raised);
- whether `member.edit` succeeded;
- which ids `fetch_user` can find.

Two platform calls are modelled as able to fail: `create_role` and `member.edit`. When one of them raises, the command ends where it stands, so anything written before it stays written. The model returns such a stop as an outcome value. The message sends (`ctx.send`) are taken to succeed.

The model follows the code as written:

- the saved roles are an ordered list, not a set;
- `unmute` deletes the mute record and writes the mutes document *before* it restores the roles;
- `mute` writes the options document even when it then refuses an already-muted member;
- nothing is locked (the commands have no per-member or per-guild serialisation);
- the default reason is used only when no reason text is given. An empty reason is not replaced.

## Model

| member | source | states |
|---|---|---|
| `Store.ReasonOrDefault` | cogs/moderation.py:33-34 | the recorded reason is the one given, or 'No reason was provided.' when none is given |
| `Store.Entries` | cogs/moderation.py:120-121 | a member's warnings are the stored list when both keys exist; a non-empty answer implies both keys exist, so a missing key reads as no warnings |
| `Store.ValidWarnId` | cogs/moderation.py:165 | `len(list) >= warn_id > 0` holds exactly when warn_id - 1 is a valid 0-based index into the list |
| `Store.WithWarning` | cogs/moderation.py:49-53 | `warn` adds the guild and member keys; the member's list becomes the old list plus the reason at the end; every other member's list and every other guild are unchanged |
| `Store.WarnAllListsInOrder` | cogs/moderation.py:49-53 | after a run of `warn` commands, the member's list is the old list followed by the reasons in the order issued |
| `Store.FreshMemberListsExactly` | cogs/moderation.py:49-53 | on a member with no entry, `warn` with R1..Rn leaves exactly [R1..Rn] |
| `Store.WithoutWarning` | cogs/moderation.py:162-170 | for 1 <= id <= length, `clearwarn` shortens the list by one; entries before position id stay, later ones move down by one; other members, other guilds and all keys are unchanged |
| `Store.ClearRemovesListedEntry` | cogs/moderation.py:165-166 | the new list is exactly the old list with position id-1 cut out (the entry `warnings` shows as 'Warning #id'); as multisets, one copy of that entry is removed and the rest are kept |
| `Store.ClearUndoesWarn` | cogs/moderation.py:162-170 | for a member who already has an entry, clearing the newest warning right after `warn` gives back the old document |
| `Store.WithMute` | cogs/moderation.py:220-234 | a successful `mute` records exactly the saved ids for the member; the guild entry is created if missing; every other record is unchanged |
| `Store.WithoutMute` | cogs/moderation.py:303-309 | `unmute` removes the member's record; the guild key stays; every other record is unchanged |
| `Store.MuteUnmuteRoundTrip` | cogs/moderation.py:296-311 | mute then unmute hands back exactly the saved ids; the document returns to its old value, except that a first-time guild keeps an empty entry |
| `Store.RemoveFirst` | cogs/moderation.py:217-218 | `roles.remove(default_role)` drops one occurrence: the list is one shorter, and its multiset is the old one minus the default role |
| `Store.SavedRolesAreTheOthers` | cogs/moderation.py:217-231 | for a role list without repeats that holds the default role, the saved ids are all the other roles in their original order, and the default role is not among them |
| `Store.WithMutedRole` | cogs/moderation.py:194-208 | `mute` sets `muted_role` of the guild; a known guild keeps its other fields; an unknown guild first gets {prefix '.', all else null}; other guilds are unchanged |
| `Store.PublicLogConfigured` | cogs/moderation.py:64-70 | the log gate is closed for a guild without an options entry and for a null `public_log`; it is open exactly when the entry's `public_log` is a non-zero channel id |
| `Store.MutedRoleKeepsLogGate` | cogs/moderation.py:200-208 | caching the muted role never opens the public-log gate: closed for a new guild, unchanged otherwise |
| `Store.ConfiguredMutedRole` | cogs/moderation.py:194-197 | the cached muted role is reused exactly when the guild has an options entry whose `muted_role` names a role that still exists; otherwise a role must be created |
| `Store.CachedMutedRoleIsReused` | cogs/moderation.py:194-208 | once `mute` has cached a role that exists, the next `mute` reuses it and creates no new role |
| `Moderation.WarningNoun` | cogs/moderation.py:117-123 | the noun is 'warning' exactly when the count is 1, and 'warnings' otherwise (0 included) |
| `Moderation.LogPost` | cogs/moderation.py:60-72 | a command posts to the public log exactly when the guild has an options entry and its `public_log` is truthy |
| `Moderation.ModerationCog.Warn` | cogs/moderation.py:42-72 | appends the reason (or the default) to the member's list; writes only the warns document; posts a log message only when the gate is open |
| `Moderation.ModerationCog.Warnings` | cogs/moderation.py:117-142 | the count is the list length, or 0 when the guild or member key is missing; the noun follows `WarningNoun`; field i is ('Warning #' i+1, the i-th stored entry), in stored order |
| `Moderation.ModerationCog.ClearWarn` | cogs/moderation.py:162-174 | a missing key gives 'no warns'; an id outside 1..length (including any id on an empty list) gives 'invalid id'; both leave the ledger alone and write nothing; otherwise it removes entry id and writes the warns document |
| `Moderation.ModerationCog.CreateMutedRole` | cogs/moderation.py:20-29 | `create_role` either gives a new role id, which is logged as created, or fails with nothing logged |
| `Moderation.ModerationCog.Mute` | cogs/moderation.py:187-234 | picks the cached role or creates one, and stops with nothing written if creation fails. It caches the role id and writes options before checking for an existing mute. An already-muted member gets 'already muted' and the mutes document is unchanged. A failed `member.edit` leaves no record. On success the saved ids (member roles minus the default role) are written only after the role swap |
| `Moderation.ModerationCog.Unmute` | cogs/moderation.py:289-313 | a missing guild gives 'no one has been muted'; a missing member gives 'not muted'; neither changes anything. Otherwise it returns exactly the stored ids and removes the record; the mutes document is written before `member.edit` restores the roles, so a failing edit still loses the record |
| `Moderation.MuteTwiceThenUnmute` | cogs/moderation.py:194-311 | mute, mute again, unmute: the second mute, whatever `create_role` would answer it, reuses the cached role (its only effect is the options write, no role creation) and is refused, given the roles the member then holds (default role and muted role); unmute restores exactly the member's roles minus the default role; afterwards the member has no record |
| `Unban.FindBan` | cogs/moderation.py:522-529 | returns the index of the first ban whose user text equals the argument, or none exactly when no ban matches |
| `Unban.ResolveTarget` | cogs/moderation.py:515-529 | a digit-only argument is a user id looked up with `fetch_user`; any other argument picks the first ban whose user text equals it; no match gives 'Please provide a valid user!' and no unban |
| `Unban.IsDigits` | cogs/moderation.py:515 | the ASCII reading of `user.isdigit()`: it holds exactly for a non-empty string made only of the characters 0-9 |
| `Unban.DecimalValue` | cogs/moderation.py:517 | the body is the definition of `int(user)` on ASCII digits (decimal, leading zeros allowed); the ensures add only that the units digit is the last character and the value is below 10 to the number of digits |

## Left out

- Every platform effect beyond the answers passed in: the style of the created role, channel lookups, the actual kick/ban/unban calls, message deletion, and every embed and message text. The effect log records only that a log post happens.
- `kick`, `ban`, `bans` and `report`: display and platform glue. Only their public-log check is modelled, as `Store.PublicLogConfigured`.
- JSON file I/O, `indent` formatting, and a document that is missing or malformed on disk. Each document is a map read and replaced whole.
- `@commands.cooldown` rate limiting. The code has no locking, so the model has no concurrency and no serialisation guarantees.
- `Moderation.ModerationCog.Mute`: a failing `ctx.send` after the role swap is not modelled. In the code that send comes between `member.edit` and the mutes write, so if it raised, the member would keep only the Muted role, no record would be written, a later `unmute` would reply 'This person is not muted!', and the saved roles would be lost. With `editSucceeds` true the model always writes the record.
- `Moderation.ModerationCog.ClearWarn`: a failing `ctx.send` after the `pop` is not modelled. In the code that send comes before the warns write, so if it raised, the removal would not be written. On `Cleared` the model always writes.
- `Moderation.ModerationCog.Mute` requires the guild default role to be among the member's roles. `roles.remove` raises otherwise, and Discord always lists that role.
- `Unban.IsDigits` and `Unban.ResolveTarget`: `str.isdigit` is modelled for ASCII digits only. Python also accepts other Unicode digit characters.
- `Moderation.ModerationCog.Unmute`: `get_role` on a saved id whose role was deleted since gives `None`. Whether `member.edit` then fails is part of the `editSucceeds` parameter, not modelled separately.
- Options entries whose fields the external config commands leave missing or of another type. The model assumes the five-field record.
- The decimal text of 'Warning #n' is not built. Each field carries the number n itself.
- main.py (bot setup, error messages, prefix lookup, the global permission check, help text) is not part of this model.
