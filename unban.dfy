/**
 * How `unban` decides whom to unban from its text argument: a string of
 * digits is a user id handed to `fetch_user`; anything else is compared
 * with the text form ('name#discriminator') of each entry of the guild's
 * ban list, and the first entry that matches wins.
 */
module Unban {
  import opened Store

  /** A platform user, as far as `unban` looks at one: its id and its text form. */
  datatype User = User(id: nat, tag: string)

  /** One entry of `guild.bans()`. */
  datatype BanEntry = BanEntry(user: User, reason: Option<string>)

  datatype UnbanTarget = Target(user: User) | InvalidUser

  predicate IsDigit(c: char)
  {
    '0' <= c <= '9'
  }

  /** `str.isdigit`, restricted to ASCII digits: non-empty and all digits. */
  predicate IsDigits(s: string)
    ensures IsDigits(s) <==> |s| > 0 && forall i :: 0 <= i < |s| ==> s[i] in "0123456789"
  {
    |s| > 0 && forall i :: 0 <= i < |s| ==> IsDigit(s[i])
  }

  function DigitValue(c: char): (d: nat)
    requires IsDigit(c)
    ensures d < 10
  {
    c as int - '0' as int
  }

  /** 10 to the power `k`. */
  function Pow10(k: nat): (p: nat)
  {
    if k == 0 then 1 else 10 * Pow10(k - 1)
  }

  /** `int(s)` for a string of decimal digits, leading zeros allowed. */
  function DecimalValue(s: string): (n: nat)
    requires forall i :: 0 <= i < |s| ==> IsDigit(s[i])
    ensures n < Pow10(|s|)
    ensures |s| > 0 ==> n % 10 == DigitValue(s[|s| - 1])
    decreases |s|
  {
    if s == [] then 0
    else 10 * DecimalValue(s[..|s| - 1]) + DigitValue(s[|s| - 1])
  }

  /** The `for ... break ... else` loop: the index of the first ban whose user text equals `tag`. */
  method FindBan(bans: seq<BanEntry>, tag: string) returns (found: Option<nat>)
    ensures found.Some? ==> found.value < |bans| && bans[found.value].user.tag == tag
    ensures found.Some? ==> forall j :: 0 <= j < found.value ==> bans[j].user.tag != tag
    ensures found.None? <==> forall j :: 0 <= j < |bans| ==> bans[j].user.tag != tag
  {
    var i := 0;
    while i < |bans|
      invariant 0 <= i <= |bans|
      invariant forall j :: 0 <= j < i ==> bans[j].user.tag != tag
    {
      if bans[i].user.tag == tag {
        return Some(i);
      }
      i := i + 1;
    }
    return None;
  }

  /**
   * The user `unban` acts on. `fetchable` is what `fetch_user` would find
   * (a missing id is `NotFound`); `bans` is the guild's ban list. On
   * `InvalidUser` the command replies `ValidUserMessage` and unbans no one.
   */
  method ResolveTarget(arg: string, fetchable: map<nat, User>, bans: seq<BanEntry>)
    returns (target: UnbanTarget)
    ensures IsDigits(arg) ==>
              target == (if DecimalValue(arg) in fetchable then Target(fetchable[DecimalValue(arg)]) else InvalidUser)
    ensures !IsDigits(arg) ==>
              (target.InvalidUser? <==> forall j :: 0 <= j < |bans| ==> bans[j].user.tag != arg)
    ensures !IsDigits(arg) && target.Target? ==>
              exists k :: 0 <= k < |bans| && bans[k].user == target.user && target.user.tag == arg &&
                          forall j :: 0 <= j < k ==> bans[j].user.tag != arg
  {
    if IsDigits(arg) {
      var id := DecimalValue(arg);
      if id in fetchable {
        target := Target(fetchable[id]);
      } else {
        target := InvalidUser;
      }
    } else {
      var found := FindBan(bans, arg);
      if found.Some? {
        target := Target(bans[found.value].user);
      } else {
        target := InvalidUser;
      }
    }
  }
}
