/** Which keys of a client's account update are dropped, and which single key is written later:
    `IMMUTABLE_KEYS` and `should_persist` of `src/account/mod.rs`. */
module UpdateKeys {
  const DELAYED := {"Appearance", "Skill", "Game"}

  const LOVER := "Lover"

  /** The fields a client's update may not name. */
  function Immutable(): set<string> {
    {
    "Name", "AccountName", "Password", "Email", "Creation", "LastLogin", "Pose", "ActivePose",
    "ChatRoom", "ID", "Socket", "Inventory", "_id", "MemberNumber", "Environment", "Ownership",
    "Lovership", "Difficulty", "AssetFamily", "DelayedAppearanceUpdate", "DelayedSkillUpdate",
    "DelayedGameUpdate" }
  }

  /** The keys an update is judged by: a `Lover` that is a string has been taken out of it by then. */
  function Counted(keys: set<string>, lover: bool): set<string> {
    if lover then keys - Immutable() - {LOVER} else keys - Immutable()
  }

  /** A lone delayed key is not written to the store now. */
  predicate OnlyDelayed(keys: set<string>) {
    |keys| == 1 && keys <= DELAYED
  }

  lemma OnlyDelayedIff(keys: set<string>)
    ensures OnlyDelayed(keys) <==> keys == {"Appearance"} || keys == {"Skill"} || keys == {"Game"}
  {
    if OnlyDelayed(keys) {
      var k :| k in keys;
      SingletonOf(keys, k);
    }
  }

  lemma SingletonOf(keys: set<string>, k: string)
    requires k in keys && |keys| == 1
    ensures keys == {k}
  {
    assert |keys - {k}| == 0;
  }
}
