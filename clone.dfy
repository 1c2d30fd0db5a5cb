/** pkg/repository/clone: copies of settings records that share no mutable
    state with the original. */
module Clone {
  import opened Discord
  import opened Records

  /** Go's `copy(dst, src)` for two slices of the same length. */
  method Copy<T>(dst: array<T>, src: array<T>)
    requires dst.Length == src.Length && dst != src
    modifies dst
    ensures dst[..] == src[..]
  {
    var i := 0;
    while i < dst.Length
      invariant 0 <= i <= dst.Length
      invariant dst[..i] == src[..i]
    {
      dst[i] := src[i];
      i := i + 1;
    }
  }

  /** `clone.UserSettings`: nil for nil, otherwise a new record with the same
      language and time zone. The source record is not changed. */
  method CloneUser(s: UserSettings?) returns (r: UserSettings?)
    ensures s == null <==> r == null
    ensures s != null ==> fresh(r) && r.Value() == s.Value()
  {
    if s == null {
      return null;
    }
    r := new UserSettings.FromValue(s.Value());
  }

  /** `clone.GuildSettings`: nil for nil, otherwise a new record with the same
      fields whose bot-master id slices are new slices holding the same ids.
      The source record is not changed. */
  method CloneGuild(s: GuildSettings?) returns (r: GuildSettings?)
    ensures s == null <==> r == null
    ensures s != null ==> fresh(r) && fresh(r.botMasterUserIds) && fresh(r.botMasterRoleIds)
    ensures s != null ==> r.Value() == s.Value()
  {
    if s == null {
      return null;
    }
    var cl := new GuildSettings.ShallowCopy(s);
    cl.botMasterUserIds := new UserId[s.botMasterUserIds.Length];
    cl.botMasterRoleIds := new RoleId[s.botMasterRoleIds.Length];
    Copy(cl.botMasterUserIds, s.botMasterUserIds);
    Copy(cl.botMasterRoleIds, s.botMasterRoleIds);
    r := cl;
  }
}
