/** The pure updaters that the socket event handlers of the chat client pass to React's
    state setters: the presence list (`usersOnline`), the message log (`messages`) and the
    per-sender unread counters (`unreadMessages`). */
module ChatUpdates {

  datatype Option<T> = None | Some(value: T)

  /** The fields of a user record that travel through the client unchanged. */
  datatype Profile = Profile(name: string, username: string, lastSeen: int, avatar: string)

  /** A user as the server announces it; only `id` and `isOnline` take part in the logic. */
  datatype User = User(id: string, profile: Profile, isOnline: bool)

  /** A chat message; only `senderId` and `receiverId` take part in the logic. */
  datatype Message = Message(id: string, content: string, senderId: string, receiverId: string, timestamp: string)

  function Ids(users: seq<User>): seq<string> {
    seq(|users|, i requires 0 <= i < |users| => users[i].id)
  }

  predicate DistinctIds(users: seq<User>) {
    forall i, j :: 0 <= i < j < |users| ==> users[i].id != users[j].id
  }

  // ---------------------------------------------------------------- presence list

  /** `prev.some((u) => u.id === id)`. */
  function HasUser(users: seq<User>, id: string): (r: bool)
    ensures r <==> exists i :: 0 <= i < |users| && users[i].id == id
  {
    if users == [] then false else users[0].id == id || HasUser(users[1..], id)
  }

  /** `prev.map((u) => u.id === user.id ? { ...user, isOnline: true } : u)`. */
  function ReplaceOnline(users: seq<User>, user: User): (r: seq<User>)
    ensures |r| == |users|
    ensures forall i :: 0 <= i < |users| ==>
              r[i] == if users[i].id == user.id then user.(isOnline := true) else users[i]
  {
    if users == [] then []
    else [if users[0].id == user.id then user.(isOnline := true) else users[0]]
         + ReplaceOnline(users[1..], user)
  }

  /** The `onlineUser` updater: an entry already listed under the incoming id is replaced,
      as received but marked online; an unknown user is put in front, as received. */
  function UpsertOnline(prev: seq<User>, user: User): (r: seq<User>)
    ensures |r| == |prev| + (if HasUser(prev, user.id) then 0 else 1)
    ensures HasUser(r, user.id)
  {
    if HasUser(prev, user.id) then ReplaceOnline(prev, user) else [user] + prev
  }

  /** The `offlineUser` updater: `prev.map((u) => u.id !== userId ? u : { ...u, isOnline: false })`. */
  function MarkOffline(users: seq<User>, userId: string): (r: seq<User>)
    ensures |r| == |users|
    ensures forall i :: 0 <= i < |users| ==>
              r[i] == if users[i].id != userId then users[i] else users[i].(isOnline := false)
  {
    if users == [] then []
    else [if users[0].id != userId then users[0] else users[0].(isOnline := false)]
         + MarkOffline(users[1..], userId)
  }

  /** `onlineUser` for a user already listed: same length, same order of ids, every entry with
      that id becomes the incoming user marked online, every other entry is untouched. */
  lemma UpsertKnownUser(prev: seq<User>, user: User)
    requires exists i :: 0 <= i < |prev| && prev[i].id == user.id
    ensures |UpsertOnline(prev, user)| == |prev|
    ensures Ids(UpsertOnline(prev, user)) == Ids(prev)
    ensures forall i :: 0 <= i < |prev| && prev[i].id == user.id ==>
              UpsertOnline(prev, user)[i] == user.(isOnline := true)
    ensures forall i :: 0 <= i < |prev| && prev[i].id != user.id ==>
              UpsertOnline(prev, user)[i] == prev[i]
  {
  }

  /** `onlineUser` for a user not listed: the incoming record, `isOnline` as received, is
      prepended and the old list follows unchanged. */
  lemma UpsertNewUser(prev: seq<User>, user: User)
    requires forall i :: 0 <= i < |prev| ==> prev[i].id != user.id
    ensures |UpsertOnline(prev, user)| == |prev| + 1
    ensures UpsertOnline(prev, user)[0] == user
    ensures UpsertOnline(prev, user)[1..] == prev
  {
  }

  /** After `onlineUser` the user is listed, and every entry under that id carries the incoming
      profile; each is online when the announcement says so. */
  lemma UpsertListsUser(prev: seq<User>, user: User)
    ensures HasUser(UpsertOnline(prev, user), user.id)
    ensures forall i :: 0 <= i < |UpsertOnline(prev, user)| && UpsertOnline(prev, user)[i].id == user.id ==>
              UpsertOnline(prev, user)[i].profile == user.profile
              && (user.isOnline ==> UpsertOnline(prev, user)[i].isOnline)
  {
    var r := UpsertOnline(prev, user);
    if !HasUser(prev, user.id) {
      assert r[0].id == user.id;
    } else {
      var k :| 0 <= k < |prev| && prev[k].id == user.id;
      assert r[k].id == user.id;
    }
  }

  /** Replacing entries under an id that is not listed changes nothing. */
  lemma {:induction false} ReplaceOnlineAbsent(users: seq<User>, user: User)
    requires !HasUser(users, user.id)
    ensures ReplaceOnline(users, user) == users
  {
    if users != [] {
      ReplaceOnlineAbsent(users[1..], user);
    }
  }

  /** The server always announces a user with `isOnline: true`; for such an announcement a
      repeated `onlineUser` is harmless. Without it the second delivery flips the fresh entry
      online, so idempotence holds exactly when the user was listed or announced online. */
  lemma UpsertIdempotentIff(prev: seq<User>, user: User)
    ensures UpsertOnline(UpsertOnline(prev, user), user) == UpsertOnline(prev, user)
            <==> HasUser(prev, user.id) || user.isOnline
  {
    var once := UpsertOnline(prev, user);
    var twice := UpsertOnline(once, user);
    if HasUser(prev, user.id) {
      assert |twice| == |once|;
      assert forall i :: 0 <= i < |once| ==> twice[i] == once[i];
    } else {
      assert once[0].id == user.id;
      ReplaceOnlineAbsent(prev, user);
      assert twice == [user.(isOnline := true)] + ReplaceOnline(prev, user) by {
        assert once == [user] + prev;
        assert once[1..] == prev;
      }
      if user.isOnline {
        assert user.(isOnline := true) == user;
      } else {
        assert twice[0] != once[0];
      }
    }
  }

  /** `onlineUser` and `offlineUser` keep the ids of the presence list pairwise distinct. */
  lemma UpsertKeepsDistinct(prev: seq<User>, user: User)
    requires DistinctIds(prev)
    ensures DistinctIds(UpsertOnline(prev, user))
  {
  }

  lemma MarkOfflineKeepsDistinct(prev: seq<User>, userId: string)
    requires DistinctIds(prev)
    ensures DistinctIds(MarkOffline(prev, userId))
    ensures Ids(MarkOffline(prev, userId)) == Ids(prev)
  {
  }

  /** `offlineUser`: every entry under the id is offline afterwards, nothing else changed. */
  lemma MarkOfflineEffect(prev: seq<User>, userId: string)
    ensures forall i :: 0 <= i < |prev| && prev[i].id == userId ==>
              !MarkOffline(prev, userId)[i].isOnline && MarkOffline(prev, userId)[i].profile == prev[i].profile
    ensures forall i :: 0 <= i < |prev| && prev[i].id != userId ==> MarkOffline(prev, userId)[i] == prev[i]
  {
  }

  /** `offlineUser` is idempotent. */
  lemma MarkOfflineIdempotent(prev: seq<User>, userId: string)
    ensures MarkOffline(MarkOffline(prev, userId), userId) == MarkOffline(prev, userId)
  {
    var once := MarkOffline(prev, userId);
    assert forall i :: 0 <= i < |once| ==> MarkOffline(once, userId)[i] == once[i];
  }

  /** A listed user who goes offline and is announced online again ends up exactly as announced,
      in the same place. */
  lemma OfflineThenOnline(prev: seq<User>, user: User)
    requires HasUser(prev, user.id)
    ensures UpsertOnline(MarkOffline(prev, user.id), user) == ReplaceOnline(prev, user)
  {
    var off := MarkOffline(prev, user.id);
    var k :| 0 <= k < |prev| && prev[k].id == user.id;
    assert off[k].id == user.id;
    assert HasUser(off, user.id);
    assert UpsertOnline(off, user) == ReplaceOnline(off, user);
    var a, b := ReplaceOnline(off, user), ReplaceOnline(prev, user);
    forall i | 0 <= i < |prev| ensures a[i] == b[i] {
      if prev[i].id != user.id {
        assert off[i] == prev[i];
      }
    }
  }

  // ---------------------------------------------------------------- message log

  /** `[...prev, message]`. */
  function AppendMessage(prev: seq<Message>, message: Message): (r: seq<Message>)
    ensures |r| == |prev| + 1 && r[|prev|] == message && r[..|prev|] == prev
  {
    prev + [message]
  }

  // ---------------------------------------------------------------- unread counters

  /** `prev[id] || 0`: a sender without an entry has no unread messages. */
  function UnreadCount(unread: map<string, nat>, id: string): (n: nat)
    ensures n == 0 <==> id !in unread || unread[id] == 0
  {
    if id in unread then unread[id] else 0
  }

  /** The two-part condition of the `newMessage` handler: the sender is not the conversation
      being shown and the message is addressed to the signed-in user. */
  predicate CountsAsUnread(message: Message, currentUserId: string, selectedUserId: Option<string>) {
    selectedUserId != Some(message.senderId) && message.receiverId == currentUserId
  }

  /** `{ ...prev, [senderId]: (prev[senderId] || 0) + 1 }`. */
  function BumpUnread(unread: map<string, nat>, senderId: string): (r: map<string, nat>)
    ensures senderId in r && r[senderId] == UnreadCount(unread, senderId) + 1
    ensures r.Keys == unread.Keys + {senderId}
    ensures forall k :: k in unread && k != senderId ==> r[k] == unread[k]
  {
    unread[senderId := UnreadCount(unread, senderId) + 1]
  }

  /** The unread map after `newMessage`. */
  function UnreadAfter(unread: map<string, nat>, message: Message, currentUserId: string,
                       selectedUserId: Option<string>): (r: map<string, nat>)
    ensures UnreadCount(r, message.senderId) == UnreadCount(unread, message.senderId) + 1
            <==> CountsAsUnread(message, currentUserId, selectedUserId)
    ensures !CountsAsUnread(message, currentUserId, selectedUserId) ==> r == unread
    ensures forall k :: k != message.senderId ==> UnreadCount(r, k) == UnreadCount(unread, k)
    ensures forall k :: k in unread ==> k in r
    ensures r.Keys <= unread.Keys + {message.senderId}
  {
    if CountsAsUnread(message, currentUserId, selectedUserId)
    then BumpUnread(unread, message.senderId)
    else unread
  }

  /** `showNotification` returns early when the sender already has unread messages; a missing
      entry compares as `undefined > 0`, which is false. */
  predicate ShowsNotification(unread: map<string, nat>, senderId: string): (r: bool)
    ensures r <==> UnreadCount(unread, senderId) == 0
  {
    !(senderId in unread && unread[senderId] > 0)
  }

  /** After one message from a sender has been counted, further messages from that sender raise
      no notification until the counters are reset. */
  lemma NotifiesOncePerSender(unread: map<string, nat>, message: Message, next: Message,
                              currentUserId: string, selectedUserId: Option<string>)
    requires CountsAsUnread(message, currentUserId, selectedUserId)
    requires next.senderId == message.senderId
    ensures !ShowsNotification(UnreadAfter(unread, message, currentUserId, selectedUserId), next.senderId)
  {
  }
}
