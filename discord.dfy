/** The few Discord API notions the settings layer uses: snowflake identifiers,
    their validity, and permission bit sets. They belong to the arikawa library;
    only the parts this model needs are restated here. */
module Discord {

  /** A snowflake: an unsigned 64-bit identifier. */
  type Snowflake = x: int | 0 <= x < 0x1_0000_0000_0000_0000

  type GuildId = Snowflake
  type UserId = Snowflake
  type RoleId = Snowflake

  /** The all-ones snowflake that arikawa uses for "explicitly no id". */
  const NullSnowflake: Snowflake := 0xFFFF_FFFF_FFFF_FFFF

  /** `Snowflake.IsValid`: neither zero nor the null snowflake. */
  predicate IsValid(id: Snowflake) {
    id != 0 && id != NullSnowflake
  }

  type Permissions = bv64

  const PermissionAdministrator: Permissions := 0x8

  /** `Permissions.Has`: every bit of `perm` is set in `p`. */
  predicate Has(p: Permissions, perm: Permissions) {
    p & perm == perm
  }

  /** The parts of a `discord.Message` the settings layer reads: the guild it
      was sent in (0 for a direct message) and its author. */
  datatype Message = Message(guildId: GuildId, authorId: UserId)

  /** The parts of a `discord.Member` the settings layer reads. */
  datatype Member = Member(userId: UserId, roleIds: seq<RoleId>)
}
