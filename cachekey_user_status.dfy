// Redis keys of the online-status and subscription data: prefix + userID.
module CacheKeyUserStatus {
  import opened Strs

  const SubscriptionKey: string := "SUBSCRIPTION:"
  const SubscribedKey: string := "SUBSCRIBED:"
  const UserStateConnKey: string := "USER_STATE_CONN:"
  const UserStatePlatformKey: string := "USER_STATE_PLATFORM:"

  /** The set of users `userId` subscribes to. */
  function GetSubscriptionKey(userId: string): string { SubscriptionKey + userId }

  /** The set of users subscribed to `userId`. */
  function GetSubscribedKey(userId: string): string { SubscribedKey + userId }

  /** The connection -> platform hash of `userId`. */
  function GetUserStateConnKey(userId: string): string { UserStateConnKey + userId }

  function GetUserStatePlatformKey(userId: string): string { UserStatePlatformKey + userId }

  /** Stripping the prefix recovers the user, for each of the four kinds. */
  lemma UserStatusKeysRoundTrip(userId: string)
    ensures TrimPrefix(GetSubscriptionKey(userId), SubscriptionKey) == userId
    ensures TrimPrefix(GetSubscribedKey(userId), SubscribedKey) == userId
    ensures TrimPrefix(GetUserStateConnKey(userId), UserStateConnKey) == userId
    ensures TrimPrefix(GetUserStatePlatformKey(userId), UserStatePlatformKey) == userId
  {
    assert GetSubscriptionKey(userId)[..|SubscriptionKey|] == SubscriptionKey;
    assert GetSubscribedKey(userId)[..|SubscribedKey|] == SubscribedKey;
    assert GetUserStateConnKey(userId)[..|UserStateConnKey|] == UserStateConnKey;
    assert GetUserStatePlatformKey(userId)[..|UserStatePlatformKey|] == UserStatePlatformKey;
  }

  /** Each builder is injective. */
  lemma UserStatusKeysInjective(u1: string, u2: string)
    ensures GetSubscriptionKey(u1) == GetSubscriptionKey(u2) ==> u1 == u2
    ensures GetSubscribedKey(u1) == GetSubscribedKey(u2) ==> u1 == u2
    ensures GetUserStateConnKey(u1) == GetUserStateConnKey(u2) ==> u1 == u2
    ensures GetUserStatePlatformKey(u1) == GetUserStatePlatformKey(u2) ==> u1 == u2
  {
    UserStatusKeysRoundTrip(u1);
    UserStatusKeysRoundTrip(u2);
  }

  /** Keys of different kinds never collide. */
  lemma UserStatusKindsDisjoint(u1: string, u2: string)
    ensures GetSubscriptionKey(u1) != GetSubscribedKey(u2)
    ensures GetSubscriptionKey(u1) != GetUserStateConnKey(u2)
    ensures GetSubscriptionKey(u1) != GetUserStatePlatformKey(u2)
    ensures GetSubscribedKey(u1) != GetUserStateConnKey(u2)
    ensures GetSubscribedKey(u1) != GetUserStatePlatformKey(u2)
    ensures GetUserStateConnKey(u1) != GetUserStatePlatformKey(u2)
  {
    DivergentPrefixes(SubscriptionKey, SubscribedKey, u1, u2, 7);
    DivergentPrefixes(SubscriptionKey, UserStateConnKey, u1, u2, 0);
    DivergentPrefixes(SubscriptionKey, UserStatePlatformKey, u1, u2, 0);
    DivergentPrefixes(SubscribedKey, UserStateConnKey, u1, u2, 0);
    DivergentPrefixes(SubscribedKey, UserStatePlatformKey, u1, u2, 0);
    DivergentPrefixes(UserStateConnKey, UserStatePlatformKey, u1, u2, 11);
  }
}
