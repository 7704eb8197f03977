/** The chat client's socket provider: the state it keeps for the signed-in user and the
    socket event handlers that overwrite that state. Every handler delegates to the pure
    updaters of ChatUpdates. */
module SocketContext {
  import opened ChatUpdates
  import JsStrings

  /** The payload of the `sendMessage` event. */
  datatype Outgoing = Outgoing(content: string, receiverId: string)

  class SocketProvider {
    /** The signed-in user's id, which the handlers close over. */
    const currentUserId: string
    /** Whether a socket is held; the provider always sets and clears `socket` and
        `socketRef.current` together, so one flag stands for both. */
    var hasSocket: bool
    var isConnected: bool
    var usersOnline: seq<User>
    var messages: seq<Message>
    var unreadMessages: map<string, nat>
    /** `selectedUserId.current`: the conversation the user is looking at, if any. */
    var selectedUserId: Option<string>

    /** A connection is only ever reported on a socket the provider holds. */
    ghost predicate Valid()
      reads this
    {
      isConnected ==> hasSocket
    }

    /** The provider's initial state: no socket, not connected, all collections empty. */
    constructor (currentUserId: string)
      ensures Valid()
      ensures this.currentUserId == currentUserId
      ensures !hasSocket && !isConnected
      ensures usersOnline == [] && messages == [] && unreadMessages == map[] && selectedUserId == None
    {
      this.currentUserId := currentUserId;
      hasSocket := false;
      isConnected := false;
      usersOnline := [];
      messages := [];
      unreadMessages := map[];
      selectedUserId := None;
    }

    /** `socketRef.current = newSocket; setSocket(newSocket)` once the handlers are registered. */
    method AttachSocket()
      requires Valid()
      modifies this
      ensures Valid()
      ensures hasSocket
      ensures isConnected == old(isConnected) && usersOnline == old(usersOnline)
      ensures messages == old(messages) && unreadMessages == old(unreadMessages)
      ensures selectedUserId == old(selectedUserId)
    {
      hasSocket := true;
    }

    /** The `connect` handler (its `userOnline` announcement is output and not modelled). */
    method OnConnect()
      requires Valid() && hasSocket
      modifies this
      ensures Valid()
      ensures isConnected && hasSocket
      ensures usersOnline == old(usersOnline) && messages == old(messages)
      ensures unreadMessages == old(unreadMessages) && selectedUserId == old(selectedUserId)
    {
      isConnected := true;
    }

    /** The `connect_error` and `disconnect` handlers: both only clear the connection flag. */
    method OnConnectionLost()
      requires Valid()
      modifies this
      ensures Valid()
      ensures !isConnected && hasSocket == old(hasSocket)
      ensures usersOnline == old(usersOnline) && messages == old(messages)
      ensures unreadMessages == old(unreadMessages) && selectedUserId == old(selectedUserId)
    {
      isConnected := false;
    }

    /** The `newMessage` handler. The message is always logged; it is counted for its sender
        exactly when `CountsAsUnread` holds, and then a notification is raised (`notified`)
        unless the sender already had unread messages. */
    method OnNewMessage(message: Message) returns (notified: bool)
      requires Valid()
      modifies this
      ensures Valid()
      ensures messages == old(messages) + [message]
      ensures unreadMessages == UnreadAfter(old(unreadMessages), message, currentUserId, old(selectedUserId))
      ensures notified <==> CountsAsUnread(message, currentUserId, old(selectedUserId))
                            && UnreadCount(old(unreadMessages), message.senderId) == 0
      ensures hasSocket == old(hasSocket) && isConnected == old(isConnected)
      ensures usersOnline == old(usersOnline) && selectedUserId == old(selectedUserId)
    {
      messages := AppendMessage(messages, message);
      notified := false;
      if CountsAsUnread(message, currentUserId, selectedUserId) {
        notified := ShowsNotification(unreadMessages, message.senderId);
        unreadMessages := BumpUnread(unreadMessages, message.senderId);
      }
    }

    /** The `messageSent` handler: the echo of one's own message is logged, nothing is counted. */
    method OnMessageSent(message: Message)
      requires Valid()
      modifies this
      ensures Valid()
      ensures messages == old(messages) + [message]
      ensures unreadMessages == old(unreadMessages)
      ensures hasSocket == old(hasSocket) && isConnected == old(isConnected)
      ensures usersOnline == old(usersOnline) && selectedUserId == old(selectedUserId)
    {
      messages := AppendMessage(messages, message);
    }

    /** The `messagesHistory` handler: the log is replaced wholesale. */
    method OnMessagesHistory(recentMessages: seq<Message>)
      requires Valid()
      modifies this
      ensures Valid()
      ensures messages == recentMessages
      ensures unreadMessages == old(unreadMessages)
      ensures hasSocket == old(hasSocket) && isConnected == old(isConnected)
      ensures usersOnline == old(usersOnline) && selectedUserId == old(selectedUserId)
    {
      messages := recentMessages;
    }

    /** The `onlineUsers` handler: the presence list is replaced wholesale. */
    method OnOnlineUsers(users: seq<User>)
      requires Valid()
      modifies this
      ensures Valid()
      ensures usersOnline == users
      ensures messages == old(messages) && unreadMessages == old(unreadMessages)
      ensures hasSocket == old(hasSocket) && isConnected == old(isConnected)
      ensures selectedUserId == old(selectedUserId)
    {
      usersOnline := users;
    }

    /** The `onlineUser` handler. */
    method OnOnlineUser(user: User)
      requires Valid()
      modifies this
      ensures Valid()
      ensures usersOnline == UpsertOnline(old(usersOnline), user)
      ensures DistinctIds(old(usersOnline)) ==> DistinctIds(usersOnline)
      ensures HasUser(usersOnline, user.id)
      ensures messages == old(messages) && unreadMessages == old(unreadMessages)
      ensures hasSocket == old(hasSocket) && isConnected == old(isConnected)
      ensures selectedUserId == old(selectedUserId)
    {
      if DistinctIds(usersOnline) {
        UpsertKeepsDistinct(usersOnline, user);
      }
      UpsertListsUser(usersOnline, user);
      usersOnline := UpsertOnline(usersOnline, user);
    }

    /** The `offlineUser` handler. */
    method OnOfflineUser(userId: string)
      requires Valid()
      modifies this
      ensures Valid()
      ensures usersOnline == MarkOffline(old(usersOnline), userId)
      ensures Ids(usersOnline) == Ids(old(usersOnline))
      ensures DistinctIds(old(usersOnline)) ==> DistinctIds(usersOnline)
      ensures messages == old(messages) && unreadMessages == old(unreadMessages)
      ensures hasSocket == old(hasSocket) && isConnected == old(isConnected)
      ensures selectedUserId == old(selectedUserId)
    {
      usersOnline := MarkOffline(usersOnline, userId);
    }

    /** `disconnectSocket`: with a socket held, everything the socket fed is reset; without
        one it does nothing. The selected conversation is a ref the reset leaves alone. */
    method DisconnectSocket()
      requires Valid()
      modifies this
      ensures Valid()
      ensures old(hasSocket) ==>
                !hasSocket && !isConnected && usersOnline == [] && messages == [] && unreadMessages == map[]
      ensures !old(hasSocket) ==>
                !hasSocket && isConnected == old(isConnected) && usersOnline == old(usersOnline)
                && messages == old(messages) && unreadMessages == old(unreadMessages)
      ensures selectedUserId == old(selectedUserId)
    {
      if hasSocket {
        hasSocket := false;
        isConnected := false;
        usersOnline := [];
        messages := [];
        unreadMessages := map[];
      }
    }

    /** The branch of the connection effect taken once the user is no longer authenticated:
        the socket is dropped and the connection flag cleared, but unlike `disconnectSocket`
        the presence list, the log and the counters are kept. */
    method OnSignedOut()
      requires Valid()
      modifies this
      ensures Valid()
      ensures !hasSocket
      ensures isConnected == (old(isConnected) && !old(hasSocket))
      ensures usersOnline == old(usersOnline) && messages == old(messages)
      ensures unreadMessages == old(unreadMessages) && selectedUserId == old(selectedUserId)
    {
      if hasSocket {
        hasSocket := false;
        isConnected := false;
      }
    }

    /** `sendMessage`: the event is emitted, with the content trimmed, only while a socket is
        held and connected. The provider's state does not change. */
    method SendMessage(content: string, receiverId: string) returns (emitted: Option<Outgoing>)
      requires Valid()
      ensures emitted.Some? <==> isConnected
      ensures emitted.Some? ==> emitted.value == Outgoing(JsStrings.Trim(content), receiverId)
    {
      if hasSocket && isConnected {
        emitted := Some(Outgoing(JsStrings.Trim(content), receiverId));
      } else {
        emitted := None;
      }
    }

    /** Writing `selectedUserId.current` when a conversation is opened or closed. */
    method SelectUser(id: Option<string>)
      requires Valid()
      modifies this
      ensures Valid()
      ensures selectedUserId == id
      ensures hasSocket == old(hasSocket) && isConnected == old(isConnected)
      ensures usersOnline == old(usersOnline) && messages == old(messages)
      ensures unreadMessages == old(unreadMessages)
    {
      selectedUserId := id;
    }

    /** The `setUnreadMessages` setter the provider hands to its consumers. */
    method SetUnreadMessages(unread: map<string, nat>)
      requires Valid()
      modifies this
      ensures Valid()
      ensures unreadMessages == unread
      ensures hasSocket == old(hasSocket) && isConnected == old(isConnected)
      ensures usersOnline == old(usersOnline) && messages == old(messages)
      ensures selectedUserId == old(selectedUserId)
    {
      unreadMessages := unread;
    }
  }
}
