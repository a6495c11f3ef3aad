/**
 * `usesPomelo`, `getTag` and the default-avatar index of `getDisplayAvatar`
 * from src/lib/utils/utils.ts. A user who moved to Discord's unique
 * usernames ("pomelo") has no discriminator, an empty one or `'0'`.
 */
module Users {
  import opened Wrappers

  /** The fields of a discord.js `User` that these helpers read; `id` is the snowflake as a number. */
  datatype User = User(id: nat, username: string, discriminator: Option<string>)

  /** `isNullishOrEmpty(discriminator) || discriminator === '0'`. */
  predicate UsesPomelo(user: User) {
    match user.discriminator
    case None => true
    case Some(d) => d == "" || d == "0"
  }

  /** `@username` for pomelo users, `username#discriminator` for the others. */
  function GetTag(user: User): (tag: string)
    ensures UsesPomelo(user) ==> tag == "@" + user.username
    ensures !UsesPomelo(user) ==> user.discriminator.Some? && tag == user.username + "#" + user.discriminator.value
  {
    if UsesPomelo(user) then "@" + user.username else user.username + "#" + user.discriminator.value
  }

  /** A username as Discord allows it: no `#`, and not starting with `@`. */
  predicate PlainUsername(name: string) {
    (forall i :: 0 <= i < |name| ==> name[i] != '#') && (|name| > 0 ==> name[0] != '@')
  }

  /** What a tag tells apart: the discriminator, or the fact that there is none. */
  function TagDiscriminator(user: User): Option<string> {
    if UsesPomelo(user) then None else user.discriminator
  }

  /** In `name + "#" + rest` with a `#`-free name, the first `#` comes right after the name. */
  lemma FirstHash(name: string, rest: string)
    requires forall i :: 0 <= i < |name| ==> name[i] != '#'
    ensures (name + "#" + rest)[|name|] == '#'
    ensures forall i :: 0 <= i < |name| ==> (name + "#" + rest)[i] != '#'
  {
  }

  /** A `#`-free name followed by `#` is recovered from the text, and so is what follows. */
  lemma SplitAtHash(a: string, d: string, b: string, e: string)
    requires forall i :: 0 <= i < |a| ==> a[i] != '#'
    requires forall i :: 0 <= i < |b| ==> b[i] != '#'
    requires a + "#" + d == b + "#" + e
    ensures a == b && d == e
  {
    var s := a + "#" + d;
    FirstHash(a, d);
    FirstHash(b, e);
    assert |a| == |b|;
    assert a == s[..|a|] == b;
    assert d == s[|a| + 1..] == e;
  }

  /** For a plain username the tag starts with `@` exactly when the user uses pomelo. */
  lemma TagMarksPomelo(user: User)
    requires PlainUsername(user.username)
    ensures |GetTag(user)| > 0
    ensures GetTag(user)[0] == '@' <==> UsesPomelo(user)
  {
    if !UsesPomelo(user) && |user.username| == 0 {
      assert GetTag(user)[0] == '#';
    }
  }

  /** Distinct users with plain usernames never share a tag. */
  lemma GetTagInjective(u: User, v: User)
    requires PlainUsername(u.username) && PlainUsername(v.username)
    requires GetTag(u) == GetTag(v)
    ensures u.username == v.username && TagDiscriminator(u) == TagDiscriminator(v)
  {
    var t := GetTag(u);
    TagMarksPomelo(u);
    TagMarksPomelo(v);
    if UsesPomelo(u) {
      assert u.username == t[1..] == v.username;
    } else {
      SplitAtHash(u.username, u.discriminator.value, v.username, v.discriminator.value);
    }
  }

  /** `2^22`: a snowflake keeps its creation timestamp above its 22 low bits, so `>> 22` is division by it. */
  const TimestampUnit: nat := 0x40_0000

  predicate IsDigit(c: char) { '0' <= c <= '9' }

  function DigitValue(c: char): (v: nat)
    requires IsDigit(c)
    ensures v < 10
  {
    c as int - '0' as int
  }

  /** `Number(s)` for a non-empty string of decimal digits. */
  function DecimalValue(s: string): nat
    requires forall i :: 0 <= i < |s| ==> IsDigit(s[i])
  {
    if |s| == 0 then 0 else 10 * DecimalValue(s[..|s| - 1]) + DigitValue(s[|s| - 1])
  }

  predicate IsDecimal(s: string) {
    |s| > 0 && forall i :: 0 <= i < |s| ==> IsDigit(s[i])
  }

  /**
   * The index passed to `defaultAvatar` for a user without an avatar:
   * `(id >> 22) % 6` for pomelo users and `Number(discriminator) % 5` for
   * the others. `None` stands for the `NaN` of a discriminator that is not
   * a decimal number.
   */
  function DefaultAvatarIndex(user: User): (index: Option<nat>)
    ensures UsesPomelo(user) ==> index == Some((user.id / TimestampUnit) % 6)
    ensures index.Some? ==> index.value < (if UsesPomelo(user) then 6 else 5)
    ensures !UsesPomelo(user) ==> (index.Some? <==> IsDecimal(user.discriminator.value))
  {
    if UsesPomelo(user) then Some((user.id / TimestampUnit) % 6)
    else if IsDecimal(user.discriminator.value) then Some(DecimalValue(user.discriminator.value) % 5)
    else None
  }

  /**
   * A snowflake keeps its timestamp above bit 22, so a pomelo user's
   * default avatar is chosen by the creation timestamp alone.
   */
  lemma PomeloAvatarByTimestamp(user: User, timestamp: nat, low: nat)
    requires UsesPomelo(user)
    requires low < TimestampUnit && user.id == timestamp * TimestampUnit + low
    ensures DefaultAvatarIndex(user) == Some(timestamp % 6)
  {
    assert user.id / TimestampUnit == timestamp;
  }

  /** Only the last digit of a legacy discriminator decides the default avatar. */
  lemma LegacyAvatarByLastDigit(user: User)
    requires !UsesPomelo(user) && IsDecimal(user.discriminator.value)
    ensures DefaultAvatarIndex(user)
         == Some(DigitValue(user.discriminator.value[|user.discriminator.value| - 1]) % 5)
  {
    var d := user.discriminator.value;
    var high := DecimalValue(d[..|d| - 1]);
    var digit := DigitValue(d[|d| - 1]);
    assert DecimalValue(d) == 5 * (2 * high) + digit;
  }
}
