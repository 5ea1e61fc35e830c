/**
 * Friend requests, friendships and location-share requests
 * (`friend_requests`, `friendships`, `location_share_requests`).
 */
module FriendSchema {
  import opened Common

  /** Status of a friend request and of a location-share request. */
  datatype RequestStatus = Pending | Accepted | Rejected

  datatype FriendshipStatus = Active | Blocked

  /** The legacy trust level stored on every friendship (`TrustLevel.FRIEND`). */
  const TRUST_LEVEL_FRIEND: int := 2

  datatype FriendRequest = FriendRequest(
    requestId: string,
    fromUserId: string,
    toUserId: string,
    message: Option<string>,
    status: RequestStatus,
    createdAt: Time,
    respondedAt: Option<Time>)

  /** One direction of a friendship: `userId` may see `friendId`'s location iff the flag is set. */
  datatype Friendship = Friendship(
    friendshipId: string,
    userId: string,
    friendId: string,
    canSeeFriendLocation: bool,
    nickname: Option<string>,
    status: FriendshipStatus,
    createdAt: Time,
    updatedAt: Time,
    trustLevel: Option<int>)

  /** `requesterId` asks to see `targetId`'s location. */
  datatype ShareRequest = ShareRequest(
    requestId: string,
    requesterId: string,
    targetId: string,
    status: RequestStatus,
    createdAt: Time,
    respondedAt: Option<Time>)

  /** The partial friendship update (`FriendshipUpdate`). */
  datatype FriendshipUpdate = FriendshipUpdate(
    canSeeFriendLocation: Option<bool>,
    nickname: Option<string>,
    trustLevel: Option<int>)
}
