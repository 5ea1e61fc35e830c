/**
 * The document store the services share: one map per collection, from
 * document id to document. Every service method reads and writes these
 * maps in place, as the services do through the Firestore client.
 */
module Store {
  import ScheduleSchema
  import PopSchema
  import UserSchema
  import LocationSchema
  import NotificationSchema
  import FriendSchema
  import ReactionSchema
  import FavoriteSchema

  class Db {
    var schedules: map<string, ScheduleSchema.Schedule>
    var locationHistory: map<string, LocationSchema.LocationSample>
    var notificationHistory: map<string, NotificationSchema.HistoryRow>
    var notifications: map<string, NotificationSchema.Notification>
    var users: map<string, UserSchema.User>
    var friendRequests: map<string, FriendSchema.FriendRequest>
    var friendships: map<string, FriendSchema.Friendship>
    var shareRequests: map<string, FriendSchema.ShareRequest>
    var reactions: map<string, ReactionSchema.Reaction>
    var pops: map<string, PopSchema.Pop>
    var favorites: map<string, FavoriteSchema.Favorite>

    /** An empty store. */
    constructor ()
      ensures schedules == map[] && locationHistory == map[] && notificationHistory == map[]
      ensures notifications == map[] && users == map[] && friendRequests == map[]
      ensures friendships == map[] && shareRequests == map[] && reactions == map[]
      ensures pops == map[] && favorites == map[]
    {
      schedules := map[];
      locationHistory := map[];
      notificationHistory := map[];
      notifications := map[];
      users := map[];
      friendRequests := map[];
      friendships := map[];
      shareRequests := map[];
      reactions := map[];
      pops := map[];
      favorites := map[];
    }
  }
}
