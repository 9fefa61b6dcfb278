/**
 * The browser client's conversation state (app.js): who is logged in, the
 * contact roster, the local copy of every conversation and the selected
 * chat. Each handler of a server frame, and each user action, changes that
 * state; what goes out over the WebSocket is appended to `outbox`. The DOM
 * work the handlers also do is not modelled.
 */
module Client {
  import opened Wrappers
  import opened Text
  import opened Protocol

  const MaxNicknameUnits := 20
  const ErrNoNickname := "请输入昵称"
  const ErrNicknameTooLong := "昵称不能超过20个字符"

  // ---------------------------------------------------------------------
  // Conversation keys

  /** How `Array.prototype.sort` sees an element: `null` compares as the string "null". */
  function SortString(u: Option<string>): string {
    u.GetOr("null")
  }

  /** How `Array.prototype.join` writes an element: `null` becomes the empty string. */
  function JoinString(u: Option<string>): string {
    u.GetOr("")
  }

  /**
   * `getChatKey`: `[user1, user2].sort().join('_')`. The default sort
   * compares UTF-16 code units and is stable, so the pair is swapped only
   * when `user2` sorts strictly first.
   */
  function JsChatKey(user1: Option<string>, user2: Option<string>): string {
    if LexLess(Utf16(SortString(user2)), Utf16(SortString(user1))) then JoinString(user2) + "_" + JoinString(user1)
    else JoinString(user1) + "_" + JoinString(user2)
  }

  /**
   * Both sides of a conversation share one key, except for the one pair a
   * sort cannot tell apart and a join writes differently: `null` and the
   * name "null".
   */
  lemma JsChatKeySymmetric(a: Option<string>, b: Option<string>)
    ensures JsChatKey(a, b) == JsChatKey(b, a) <==> a == b || SortString(a) != SortString(b)
  {
    var sa, sb := SortString(a), SortString(b);
    if sa != sb {
      if Utf16(sa) == Utf16(sb) {
        Utf16Injective(sa, sb);
      }
      LexLessTotal(Utf16(sa), Utf16(sb));
      LexLessAsymmetric(Utf16(sa), Utf16(sb));
    } else if a != b {
      LexLessAsymmetric(Utf16(sa), Utf16(sa));
      if a.None? {
        assert JsChatKey(a, b) == "_null" && JsChatKey(b, a) == "null_";
      } else {
        assert JsChatKey(a, b) == "null_" && JsChatKey(b, a) == "_null";
      }
    }
  }

  /** Both participants named: the key does not depend on the order. */
  lemma JsChatKeyNamed(a: string, b: string)
    ensures JsChatKey(Some(a), Some(b)) == JsChatKey(Some(b), Some(a))
  {
    JsChatKeySymmetric(Some(a), Some(b));
  }

  // ---------------------------------------------------------------------
  // The roster

  /** The names `updateContactsList(users)` keeps: every listed user but `me`. */
  function ContactsFrom(users: seq<string>, me: Option<string>): set<string> {
    if users == [] then {}
    else
      var init, last := users[..|users| - 1], users[|users| - 1];
      ContactsFrom(init, me) + (if Some(last) != me then {last} else {})
  }

  /** A name is a contact exactly when it was listed and is not the logged-in user. */
  lemma {:induction false} ContactsFromMembers(users: seq<string>, me: Option<string>)
    ensures forall u :: u in ContactsFrom(users, me) <==> u in users && Some(u) != me
  {
    if users != [] {
      var init, last := users[..|users| - 1], users[|users| - 1];
      assert users == init + [last];
      ContactsFromMembers(init, me);
    }
  }

  /** One more listed user: it joins the roster unless it is `me`. */
  lemma ContactsFromStep(users: seq<string>, i: nat, me: Option<string>)
    requires i < |users|
    ensures ContactsFrom(users[..i + 1], me) == ContactsFrom(users[..i], me) + (if Some(users[i]) != me then {users[i]} else {})
  {
    assert users[..i + 1][..i] == users[..i];
  }

  /** `addContact(username)`: the roster after a user comes online. */
  function WithContact(contacts: set<string>, me: Option<string>, u: string): set<string> {
    if Some(u) != me && u !in contacts then contacts + {u} else contacts
  }

  /** The logged-in user never becomes a contact, and announcing a user twice is announcing it once. */
  lemma WithContactProperties(contacts: set<string>, me: Option<string>, u: string)
    ensures me.Some? && me.value !in contacts ==> me.value !in WithContact(contacts, me, u)
    ensures Some(u) != me ==> WithContact(contacts, me, u) == contacts + {u}
    ensures Some(u) == me ==> WithContact(contacts, me, u) == contacts
    ensures WithContact(WithContact(contacts, me, u), me, u) == WithContact(contacts, me, u)
  {
  }

  // ---------------------------------------------------------------------
  // Local conversations

  /**
   * An entry of a local conversation: the `send_message` object the client
   * built (with `from` and `read` added), or the `new_message` frame it
   * received. `to` is null for an image whose chat was closed while it loaded;
   * a received content type or timestamp is null when the server stored it so.
   */
  datatype ClientMessage = ClientMessage(from: Option<string>, to: Option<string>, content: string,
                                         contentType: Option<string>, timestamp: Option<int>, read: bool)

  /** `messages.get(chatKey) || []`. */
  function Conversation(messages: map<string, seq<ClientMessage>>, key: string): seq<ClientMessage> {
    if key in messages then messages[key] else []
  }

  /** The entries `markMessageAsRead` flips: sent by `me` to `peer`. */
  predicate IsSentTo(m: ClientMessage, me: Option<string>, peer: string) {
    m.from == me && m.to == Some(peer)
  }

  /** The conversation after `peer`'s read receipt: `msg.read = true` on each of `me`'s messages to `peer`. */
  function MarkedSent(msgs: seq<ClientMessage>, me: Option<string>, peer: string): seq<ClientMessage> {
    seq(|msgs|, i requires 0 <= i < |msgs| =>
      if IsSentTo(msgs[i], me, peer) then msgs[i].(read := true) else msgs[i])
  }

  /**
   * Exactly `me`'s messages to `peer` become read; the peer's messages,
   * and every field but `read`, are as before.
   */
  lemma MarkedSentEffect(msgs: seq<ClientMessage>, me: Option<string>, peer: string)
    ensures |MarkedSent(msgs, me, peer)| == |msgs|
    ensures forall i :: 0 <= i < |msgs| ==> MarkedSent(msgs, me, peer)[i] == msgs[i].(read := MarkedSent(msgs, me, peer)[i].read)
    ensures forall i :: 0 <= i < |msgs| ==> (MarkedSent(msgs, me, peer)[i].read <==> msgs[i].read || IsSentTo(msgs[i], me, peer))
  {
  }

  /** A repeated receipt changes nothing more. */
  lemma MarkedSentIdempotent(msgs: seq<ClientMessage>, me: Option<string>, peer: string)
    ensures MarkedSent(MarkedSent(msgs, me, peer), me, peer) == MarkedSent(msgs, me, peer)
  {
  }

  // ---------------------------------------------------------------------
  // Login

  /** The login button's checks on the trimmed nickname: the error shown, or None when it is sent. */
  function LoginRejection(nickname: string): Option<string> {
    if nickname == "" then Some(ErrNoNickname)
    else if JsLength(nickname) > MaxNicknameUnits then Some(ErrNicknameTooLong)
    else None
  }

  /**
   * A nickname the client sends is 1 to 20 UTF-16 code units long, so at
   * most 20 characters, and has no surrounding JavaScript whitespace.
   */
  lemma LoginAccepted(input: string)
    ensures LoginRejection(JsTrim(input)) == None <==> 1 <= JsLength(JsTrim(input)) <= MaxNicknameUnits
    ensures LoginRejection(JsTrim(input)) == None ==>
              var n := JsTrim(input); 1 <= |n| <= MaxNicknameUnits && !IsJsWhitespace(n[0]) && !IsJsWhitespace(n[|n| - 1])
  {
    var n := JsTrim(input);
    JsLengthCountsAstralTwice(n);
    StripEnds(input, IsJsWhitespace);
  }

  /**
   * The module-level state of app.js. `contacts` is a Map whose values are
   * all `true`, so only its keys are kept; the DOM the handlers also update
   * is left out.
   */
  class ChatClient {
    var currentUser: Option<string>
    var currentChatWith: Option<string>
    var contacts: set<string>
    var messages: map<string, seq<ClientMessage>>
    var outbox: seq<ClientFrame>
    /** `loginBtn.disabled`. */
    var loginDisabled: bool
    /** `errorMsg.textContent`. */
    var errorText: string

    /** The logged-in user is never in its own roster. */
    ghost predicate Valid()
      reads this`currentUser, this`contacts
    {
      currentUser.Some? ==> currentUser.value !in contacts
    }

    constructor ()
      ensures Valid()
      ensures currentUser == None && currentChatWith == None && contacts == {} && messages == map[]
      ensures outbox == [] && !loginDisabled && errorText == ""
    {
      currentUser, currentChatWith, contacts, messages := None, None, {}, map[];
      outbox, loginDisabled, errorText := [], false, "";
    }

    // --- effects of each server frame, as relations between the old and new state

    twostate predicate Unchanged()
      reads this
    {
      && currentUser == old(currentUser) && currentChatWith == old(currentChatWith) && contacts == old(contacts)
      && messages == old(messages) && outbox == old(outbox)
      && loginDisabled == old(loginDisabled) && errorText == old(errorText)
    }

    /** The effect of a `new_message` frame. */
    twostate predicate ReceivedDone(from: string, to: string, content: string, contentType: Option<string>, timestamp: Option<int>,
                                    read: bool)
      reads this
    {
      var key := JsChatKey(old(currentUser), Some(from));
      && currentUser == old(currentUser) && currentChatWith == old(currentChatWith) && contacts == old(contacts)
      && loginDisabled == old(loginDisabled) && errorText == old(errorText)
      && messages == old(messages)[key := Conversation(old(messages), key)
                                          + [ClientMessage(Some(from), Some(to), content, contentType, timestamp, read)]]
      && outbox == old(outbox) + (if currentChatWith == Some(from) then [MarkAsRead(Some(from))] else [])
    }

    /** The effect of a `message_read` frame from `user`. */
    twostate predicate MarkedDone(user: string)
      reads this
    {
      var key := JsChatKey(old(currentUser), Some(user));
      && currentUser == old(currentUser) && currentChatWith == old(currentChatWith) && contacts == old(contacts)
      && loginDisabled == old(loginDisabled) && errorText == old(errorText) && outbox == old(outbox)
      && messages == (if key in old(messages) then old(messages)[key := MarkedSent(old(messages)[key], old(currentUser), user)]
                      else old(messages))
    }

    /**
     * The effect of one frame from the server; the types `handleMessage`
     * does not list change nothing. `selectorThrows` says whether the
     * contact-list lookup for a `user_offline` name throws (see
     * RemoveContact).
     */
    twostate predicate Handled(frame: ServerFrame, selectorThrows: bool)
      reads this
    {
      match frame
      case RegisterSuccess(username, users) =>
        && currentUser == Some(username) && contacts == ContactsFrom(users, Some(username))
        && currentChatWith == old(currentChatWith) && messages == old(messages) && outbox == old(outbox)
        && loginDisabled == old(loginDisabled) && errorText == old(errorText)
      case RegisterError(message) =>
        && errorText == message && !loginDisabled
        && currentUser == old(currentUser) && currentChatWith == old(currentChatWith) && contacts == old(contacts)
        && messages == old(messages) && outbox == old(outbox)
      case UsersList(users) =>
        && contacts == ContactsFrom(users, old(currentUser))
        && currentUser == old(currentUser) && currentChatWith == old(currentChatWith)
        && messages == old(messages) && outbox == old(outbox)
        && loginDisabled == old(loginDisabled) && errorText == old(errorText)
      case NewMessage(from, to, content, contentType, timestamp, read) =>
        ReceivedDone(from, to, content, contentType, timestamp, read)
      case MessageRead(user) => MarkedDone(user)
      case UserOnline(username) =>
        && contacts == WithContact(old(contacts), old(currentUser), username)
        && currentUser == old(currentUser) && currentChatWith == old(currentChatWith)
        && messages == old(messages) && outbox == old(outbox)
        && loginDisabled == old(loginDisabled) && errorText == old(errorText)
      case UserOffline(username) =>
        && contacts == old(contacts) - {username}
        && currentChatWith == (if !selectorThrows && old(currentChatWith) == Some(username) then None
                               else old(currentChatWith))
        && currentUser == old(currentUser) && messages == old(messages) && outbox == old(outbox)
        && loginDisabled == old(loginDisabled) && errorText == old(errorText)
      case _ => Unchanged()
    }

    // --- server frames

    /** `handleMessage`: dispatch on the frame's type. */
    method HandleMessage(frame: ServerFrame, selectorThrows: bool)
      requires Valid()
      modifies this
      ensures Valid()
      ensures Handled(frame, selectorThrows)
    {
      match frame
      case RegisterSuccess(username, users) => OnRegisterSuccess(username, users);
      case RegisterError(message) =>
        errorText := message;
        loginDisabled := false;
      case UsersList(users) => UpdateContactsList(users);
      case NewMessage(from, to, content, contentType, timestamp, read) =>
        ReceiveMessage(from, to, content, contentType, timestamp, read);
      case MessageRead(user) => MarkMessageAsRead(user);
      case UserOnline(username) => AddContact(username);
      case UserOffline(username) => RemoveContact(username, selectorThrows);
      case _ =>
    }

    /** `onRegisterSuccess`: the name the server accepted becomes the current user, and the roster is rebuilt. */
    method OnRegisterSuccess(username: string, users: seq<string>)
      modifies this`currentUser, this`contacts
      ensures Valid()
      ensures currentUser == Some(username) && contacts == ContactsFrom(users, Some(username))
    {
      currentUser := Some(username);
      UpdateContactsList(users);
    }

    /** `updateContactsList(users)`: `contacts.clear()`, then every listed user but the current one. */
    method UpdateContactsList(users: seq<string>)
      modifies this`contacts
      ensures Valid()
      ensures contacts == ContactsFrom(users, currentUser)
    {
      contacts := {};
      var i := 0;
      while i < |users|
        invariant 0 <= i <= |users|
        invariant contacts == ContactsFrom(users[..i], currentUser)
      {
        ContactsFromStep(users, i, currentUser);
        if Some(users[i]) != currentUser {
          contacts := contacts + {users[i]};
        }
        i := i + 1;
      }
      assert users[..i] == users;
      ContactsFromMembers(users, currentUser);
    }

    /** `addContact(username)`, on `user_online`. */
    method AddContact(username: string)
      requires Valid()
      modifies this`contacts
      ensures Valid()
      ensures contacts == WithContact(old(contacts), currentUser, username)
    {
      if Some(username) != currentUser && username !in contacts {
        contacts := contacts + {username};
      }
    }

    /**
     * `removeContact(username)`, on `user_offline`: an open chat with that
     * user is closed. Between the two, `querySelector` looks the contact up
     * with the name pasted into `[data-username="…"]`. A name that breaks
     * that selector, such as `a"b`, makes the lookup throw, and the chat
     * then stays open. Whether it throws is the browser's selector parser's
     * verdict, so it comes in as `selectorThrows`.
     */
    method RemoveContact(username: string, selectorThrows: bool)
      requires Valid()
      modifies this`contacts, this`currentChatWith
      ensures Valid()
      ensures contacts == old(contacts) - {username}
      ensures currentChatWith == None <==>
                old(currentChatWith) == None || (!selectorThrows && old(currentChatWith) == Some(username))
      ensures currentChatWith != None ==> currentChatWith == old(currentChatWith)
    {
      contacts := contacts - {username};
      if selectorThrows {
        return;
      }
      if currentChatWith == Some(username) {
        currentChatWith := None;
      }
    }

    /** `receiveMessage(data)`: appended as received, and acknowledged when that chat is open. */
    method ReceiveMessage(from: string, to: string, content: string, contentType: Option<string>, timestamp: Option<int>,
                          read: bool)
      modifies this`messages, this`outbox
      ensures ReceivedDone(from, to, content, contentType, timestamp, read)
    {
      var key := JsChatKey(currentUser, Some(from));
      // `messages.set(chatKey, [])` when missing, then `push(data)`
      messages := messages[key := Conversation(messages, key)
                                  + [ClientMessage(Some(from), Some(to), content, contentType, timestamp, read)]];
      if currentChatWith == Some(from) {
        outbox := outbox + [MarkAsRead(Some(from))];
      }
    }

    /** `markMessageAsRead(data)`, on `message_read` from `user`. */
    method MarkMessageAsRead(user: string)
      modifies this`messages
      ensures MarkedDone(user)
    {
      var key := JsChatKey(currentUser, Some(user));
      if key in messages {
        ghost var msgs := messages[key];
        ghost var others := messages;
        var i := 0;
        while i < |messages[key]|
          invariant key in messages && |messages[key]| == |msgs|
          invariant 0 <= i <= |msgs|
          invariant forall j :: 0 <= j < i ==> messages[key][j] == MarkedSent(msgs, currentUser, user)[j]
          invariant forall j :: i <= j < |msgs| ==> messages[key][j] == msgs[j]
          invariant messages == others[key := messages[key]]
        {
          var msg := messages[key][i];
          if msg.from == currentUser && msg.to == Some(user) {
            messages := messages[key := messages[key][i := msg.(read := true)]];
          }
          i := i + 1;
        }
        assert messages[key] == MarkedSent(msgs, currentUser, user);
      }
    }

    // --- user actions

    /** The login button: trim, check, disable the button and send `register`. */
    method Login(input: string)
      modifies this`loginDisabled, this`errorText, this`outbox
      ensures var nickname := JsTrim(input);
              match LoginRejection(nickname)
              case Some(err) =>
                errorText == err && loginDisabled == old(loginDisabled) && outbox == old(outbox)
              case None =>
                errorText == "" && loginDisabled && outbox == old(outbox) + [Register(Given(nickname), None)]
    {
      var nickname := JsTrim(input);
      if nickname == "" {
        errorText := ErrNoNickname;
        return;
      }
      if JsLength(nickname) > MaxNicknameUnits {
        errorText := ErrNicknameTooLong;
        return;
      }
      loginDisabled := true;
      errorText := "";
      outbox := outbox + [Register(Given(nickname), None)];
    }

    /**
     * `selectContact(username)`: open the chat and send a read receipt for
     * it. The chat is opened first; the contact lookup in between throws
     * for a name that breaks its selector (`selectorThrows`, as in
     * RemoveContact), and then no receipt goes out.
     */
    method SelectContact(username: string, selectorThrows: bool)
      modifies this`currentChatWith, this`outbox
      ensures currentChatWith == Some(username)
      ensures selectorThrows ==> outbox == old(outbox)
      ensures !selectorThrows ==> outbox == old(outbox) + [MarkAsRead(Some(username))]
    {
      currentChatWith := Some(username);
      if selectorThrows {
        return;
      }
      outbox := outbox + [MarkAsRead(Some(username))];
    }

    /**
     * A contact whose name breaks the lookup's selector goes offline while
     * its chat is open: the contact leaves the roster, but the chat stays
     * open and can still be written to.
     */
    method BrokenSelectorKeepsChatOpen(name: string)
      requires Valid()
      modifies this
      ensures Valid()
      ensures currentChatWith == Some(name) && name !in contacts
      ensures outbox == old(outbox)
    {
      SelectContact(name, true);
      HandleMessage(UserOffline(name), true);
    }

    /**
     * `sendMessage()` with the input box holding `text`, at time `now`:
     * nothing without trimmed text and an open chat; otherwise one
     * `send_message` frame and one unread local entry.
     */
    method SendMessage(text: string, now: int)
      modifies this`messages, this`outbox
      ensures var t := JsTrim(text);
              if t == "" || !Truthy(currentChatWith) then messages == old(messages) && outbox == old(outbox)
              else
                var key := JsChatKey(currentUser, currentChatWith);
                && outbox == old(outbox) + [ClientFrame.SendMessage(currentChatWith, Some(t), Given("text"), Given(now))]
                && messages == old(messages)[key := Conversation(old(messages), key)
                                                     + [ClientMessage(currentUser, currentChatWith, t, Some("text"), Some(now), false)]]
    {
      var t := JsTrim(text);
      if t == "" || !Truthy(currentChatWith) {
        return;
      }
      Post(t, "text", now);
    }

    /** `sendImage(file)`: the file is read only when a chat is open. */
    method SendImage() returns (reading: bool)
      ensures reading <==> Truthy(currentChatWith)
    {
      reading := Truthy(currentChatWith);
    }

    /**
     * The image reader's `onload`, with the file read as `dataUrl`: it
     * posts to whatever chat is open by then, which may be none.
     */
    method OnImageLoaded(dataUrl: string, now: int)
      modifies this`messages, this`outbox
      ensures var key := JsChatKey(currentUser, currentChatWith);
              && outbox == old(outbox) + [ClientFrame.SendMessage(currentChatWith, Some(dataUrl), Given("image"), Given(now))]
              && messages == old(messages)[key := Conversation(old(messages), key)
                                                   + [ClientMessage(currentUser, currentChatWith, dataUrl, Some("image"), Some(now), false)]]
    {
      Post(dataUrl, "image", now);
    }

    /** The part `sendMessage` and `sendImage` share: send the frame and keep an unread copy. */
    method Post(content: string, contentType: string, now: int)
      modifies this`messages, this`outbox
      ensures outbox == old(outbox) + [ClientFrame.SendMessage(currentChatWith, Some(content), Given(contentType), Given(now))]
      ensures var key := JsChatKey(currentUser, currentChatWith);
              messages == old(messages)[key := Conversation(old(messages), key)
                                          + [ClientMessage(currentUser, currentChatWith, content, Some(contentType), Some(now), false)]]
    {
      outbox := outbox + [ClientFrame.SendMessage(currentChatWith, Some(content), Given(contentType), Given(now))];
      var key := JsChatKey(currentUser, currentChatWith);
      messages := messages[key := Conversation(messages, key)
                                  + [ClientMessage(currentUser, currentChatWith, content, Some(contentType), Some(now), false)]];
    }
  }
}
