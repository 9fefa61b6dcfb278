/**
 * The chat server: its per-process state (who is online, the stored
 * conversations, the groups) and the handler for each frame type a client
 * sends. Every handler checks its frame first and only then changes state;
 * what goes out over a WebSocket is appended to `outbox`.
 */
module Server {
  import opened Wrappers
  import opened Text
  import opened Protocol

  const MaxNicknameLength := 20
  const ErrEmptyNickname := "昵称不能为空"
  const ErrNicknameTooLong := "昵称不能超过20个字符"
  const ErrNicknameTaken := "昵称已被使用，请换一个"
  const ErrEmptyGroupName := "群名称不能为空"
  const ErrTooFewMembers := "至少需要2个成员"
  const DefaultContentType := "text"

  predicate Distinct<T(==)>(s: seq<T>) {
    forall i, j :: 0 <= i < j < |s| ==> s[i] != s[j]
  }

  // ---------------------------------------------------------------------
  // Conversation keys

  /** `get_chat_key`: the two names in Python's sorted order, joined by '_'. */
  function ChatKey(user1: string, user2: string): string {
    if LexLess(CodePoints(user2), CodePoints(user1)) then user2 + "_" + user1
    else user1 + "_" + user2
  }

  /** Both participants find the conversation under the same key. */
  lemma ChatKeySymmetric(a: string, b: string)
    ensures ChatKey(a, b) == ChatKey(b, a)
  {
    if a != b {
      if CodePoints(a) == CodePoints(b) {
        CodePointsInjective(a, b);
      }
      LexLessTotal(CodePoints(a), CodePoints(b));
      LexLessAsymmetric(CodePoints(a), CodePoints(b));
    }
  }

  /**
   * The key is not injective once names may contain '_': the pairs
   * ("a_b", "c") and ("a", "b_c") share one message list.
   */
  lemma ChatKeyCollides()
    ensures ChatKey("a_b", "c") == ChatKey("a", "b_c") == "a_b_c"
  {
    assert CodePoints("c")[0] == 'c' as int && CodePoints("a_b")[0] == 'a' as int;
    assert CodePoints("b_c")[0] == 'b' as int && CodePoints("a")[0] == 'a' as int;
  }

  // ---------------------------------------------------------------------
  // Group identifiers

  function Digit(d: nat): (c: char)
    requires d < 10
    ensures '0' <= c <= '9'
  {
    ('0' as int + d) as char
  }

  /** Python's `str(n)` for a natural number: its decimal digits. */
  function NatToString(n: nat): (r: string)
    ensures |r| >= 1 && (n < 10 <==> |r| == 1)
    ensures forall i :: 0 <= i < |r| ==> '0' <= r[i] <= '9'
  {
    if n < 10 then [Digit(n)] else NatToString(n / 10) + [Digit(n % 10)]
  }

  /** Different numbers have different decimal representations. */
  lemma {:induction false} NatToStringInjective(m: nat, n: nat)
    requires NatToString(m) == NatToString(n)
    ensures m == n
  {
    if m >= 10 && n >= 10 {
      var sm, sn := NatToString(m), NatToString(n);
      assert sm[|sm| - 1] == Digit(m % 10) && sn[|sn| - 1] == Digit(n % 10);
      assert m % 10 == n % 10;
      assert sm[..|sm| - 1] == NatToString(m / 10);
      assert sn[..|sn| - 1] == NatToString(n / 10);
      NatToStringInjective(m / 10, n / 10);
    }
  }

  /** `f'group_{n}'`. */
  function GroupId(n: nat): string {
    "group_" + NatToString(n)
  }

  /** The counter value is recoverable from the identifier, so a new counter value gives a new identifier. */
  lemma GroupIdInjective(m: nat, n: nat)
    requires GroupId(m) == GroupId(n)
    ensures m == n
  {
    assert NatToString(m) == GroupId(m)[6..] == GroupId(n)[6..] == NatToString(n);
    NatToStringInjective(m, n);
  }

  /** The identifiers handed out while the counter went from 0 to n. */
  ghost function GroupIds(n: nat): set<string> {
    if n == 0 then {} else GroupIds(n - 1) + {GroupId(n)}
  }

  /** An identifier from a later counter value was not handed out before. */
  lemma {:induction false} LaterGroupIdIsFresh(n: nat, m: nat)
    requires n < m
    ensures GroupId(m) !in GroupIds(n)
  {
    if n > 0 {
      LaterGroupIdIsFresh(n - 1, m);
      if GroupId(n) == GroupId(m) {
        GroupIdInjective(n, m);
      }
    }
  }

  /**
   * No two names produce a key of the form `group_<digits>`, so a one-to-one
   * conversation and a group never share a list in `messages_store`: the
   * only '_' of such a key would sit after "group", and a digit sorts before 'g'.
   */
  lemma ChatKeyIsNoGroupId(a: string, b: string, n: nat)
    ensures ChatKey(a, b) != GroupId(n)
  {
    var key, g, d := ChatKey(a, b), GroupId(n), NatToString(n);
    var swap := LexLess(CodePoints(b), CodePoints(a));
    var first, second := if swap then b else a, if swap then a else b;
    assert key == first + "_" + second;
    assert key[|first|] == '_';
    var p := |first|;
    if p != 5 {
      // the '_' of `key` faces a letter of "group", a digit, or nothing
      if p < |g| {
        assert g[p] != '_' by {
          if p < 5 { assert g[p] == "group"[p]; } else { assert g[p] == d[p - 6]; }
        }
      }
    } else if first != "group" {
      assert key[..5] == first && g[..5] == "group";
    } else {
      assert LexLess(CodePoints(d), CodePoints("group")) by {
        assert CodePoints(d)[0] == d[0] as int < 'g' as int == CodePoints("group")[0];
      }
      LexLessAsymmetric(CodePoints(d), CodePoints("group"));
      assert second != d;
      assert key[6..] == second && g[6..] == d;
    }
  }

  /** Hence no conversation key is ever among the identifiers handed out. */
  lemma {:induction false} ChatKeyNeverIssued(a: string, b: string, n: nat)
    ensures ChatKey(a, b) !in GroupIds(n)
  {
    if n > 0 {
      ChatKeyNeverIssued(a, b, n - 1);
      ChatKeyIsNoGroupId(a, b, n);
    }
  }

  /**
   * The frames on which a handler raises, which ends the connection's
   * receive loop: a `null` nickname (`None.strip()`), a read receipt on a
   * connection that has seen no `register` frame (`sorted` on `None`), a
   * `null` group name, and a `null` member list behind a non-blank name
   * (`len(None)`).
   */
  predicate Raises(data: ClientFrame, user: Option<string>) {
    match data
    case Register(u, _) => u.Null?
    case MarkAsRead(from) => Truthy(from) && user.None?
    case CreateGroup(name, members) => name.Null? || (PyStrip(GetDefault(name, "").value) != "" && members.Null?)
    case _ => false
  }

  // ---------------------------------------------------------------------
  // Registration

  /** A nickname the registration checks let through: 1 to 20 code points, no surrounding whitespace. */
  predicate IsAcceptedNickname(u: string) {
    1 <= |u| <= MaxNicknameLength && !IsPyWhitespace(u[0]) && !IsPyWhitespace(u[|u| - 1])
  }

  /** A non-empty `userId` that matches the one recorded for `username`. */
  predicate IsReturningUser(username: string, userId: string, ids: map<string, string>) {
    userId != "" && username in ids && ids[username] == userId
  }

  /**
   * `handle_register`'s checks on the stripped nickname, in source order:
   * the `register_error` message, or None when registration succeeds.
   */
  function RegisterRejection(username: string, userId: string, connected: map<string, ConnId>,
                             ids: map<string, string>): Option<string>
  {
    if username == "" then Some(ErrEmptyNickname)
    else if |username| > MaxNicknameLength then Some(ErrNicknameTooLong)
    else if username in connected && !IsReturningUser(username, userId, ids) then Some(ErrNicknameTaken)
    else None
  }

  /**
   * Whatever the client typed, a nickname that registration accepts has
   * 1 to 20 code points and no leading or trailing whitespace.
   */
  lemma AcceptedNicknameShape(raw: string, userId: string, connected: map<string, ConnId>,
                              ids: map<string, string>)
    requires RegisterRejection(PyStrip(raw), userId, connected, ids) == None
    ensures IsAcceptedNickname(PyStrip(raw))
  {
    StripEnds(raw, IsPyWhitespace);
  }

  /**
   * A name that is already online is rejected unless the frame carries the
   * non-empty `userId` last recorded for it; a free name within the length
   * bounds is always accepted.
   */
  lemma RegisterTakenName(username: string, userId: string, connected: map<string, ConnId>,
                          ids: map<string, string>)
    requires 1 <= |username| <= MaxNicknameLength
    ensures username in connected && !IsReturningUser(username, userId, ids)
            <==> RegisterRejection(username, userId, connected, ids) == Some(ErrNicknameTaken)
    ensures username !in connected ==> RegisterRejection(username, userId, connected, ids) == None
  {
  }

  // ---------------------------------------------------------------------
  // Recipient selection

  /** `names` without `name`, in order (the users `broadcast(..., exclude=name)` visits). */
  function Without(names: seq<string>, name: string): seq<string> {
    if names == [] then []
    else
      var init, last := names[..|names| - 1], names[|names| - 1];
      Without(init, name) + (if last != name then [last] else [])
  }

  /** One more name visited: it is kept unless it is `name`. */
  lemma WithoutStep(names: seq<string>, i: nat, name: string)
    requires i < |names|
    ensures names[i] != name ==> Without(names[..i + 1], name) == Without(names[..i], name) + [names[i]]
    ensures names[i] == name ==> Without(names[..i + 1], name) == Without(names[..i], name)
  {
    assert names[..i + 1][..i] == names[..i];
  }

  /** Exactly the other names remain, still each once. */
  lemma {:induction false} WithoutMembers(names: seq<string>, name: string)
    ensures forall u :: u in Without(names, name) <==> u in names && u != name
    ensures Distinct(names) ==> Distinct(Without(names, name))
  {
    if names != [] {
      var init, last := names[..|names| - 1], names[|names| - 1];
      assert names == init + [last];
      WithoutMembers(init, name);
      assert Distinct(names) ==> Distinct(init) && last !in init;
    }
  }

  /**
   * The members of a group, in member order, that are connected and not in
   * `except`: the users a group notification or group message reaches.
   */
  function ReachableMembers(members: seq<Option<string>>, connected: map<string, ConnId>,
                            except: set<Option<string>>): seq<string>
  {
    if members == [] then []
    else
      var init, last := members[..|members| - 1], members[|members| - 1];
      ReachableMembers(init, connected, except)
        + (if last !in except && last.Some? && last.value in connected then [last.value] else [])
  }

  /** One more member visited: it is reached when it is a connected name outside `except`. */
  lemma ReachableMembersStep(members: seq<Option<string>>, i: nat, connected: map<string, ConnId>,
                             except: set<Option<string>>)
    requires i < |members|
    ensures members[i] !in except && members[i].Some? && members[i].value in connected ==>
              ReachableMembers(members[..i + 1], connected, except)
              == ReachableMembers(members[..i], connected, except) + [members[i].value]
    ensures !(members[i] !in except && members[i].Some? && members[i].value in connected) ==>
              ReachableMembers(members[..i + 1], connected, except) == ReachableMembers(members[..i], connected, except)
  {
    assert members[..i + 1][..i] == members[..i];
  }

  /** A user is reached exactly when it is a connected member outside `except`; nobody twice. */
  lemma {:induction false} ReachableMembersMembers(members: seq<Option<string>>, connected: map<string, ConnId>,
                                                   except: set<Option<string>>)
    ensures forall u :: u in ReachableMembers(members, connected, except) <==>
              Some(u) in members && Some(u) !in except && u in connected
    ensures Distinct(members) ==> Distinct(ReachableMembers(members, connected, except))
  {
    if members != [] {
      var init, last := members[..|members| - 1], members[|members| - 1];
      assert members == init + [last];
      ReachableMembersMembers(init, connected, except);
      assert Distinct(members) ==> Distinct(init) && last !in init;
    }
  }

  /** One `send_json(frame)` per named user that is connected, to that user's socket, in order. */
  function DeliveriesTo(names: seq<string>, connected: map<string, ConnId>, frame: ServerFrame): seq<Delivery> {
    if names == [] then []
    else
      var init, last := names[..|names| - 1], names[|names| - 1];
      DeliveriesTo(init, connected, frame) + (if last in connected then [Delivery(connected[last], frame)] else [])
  }

  /** One more name: one more delivery if it is connected. */
  lemma DeliveriesToSnoc(names: seq<string>, u: string, connected: map<string, ConnId>, frame: ServerFrame)
    ensures u in connected ==>
              DeliveriesTo(names + [u], connected, frame) == DeliveriesTo(names, connected, frame) + [Delivery(connected[u], frame)]
  {
    assert (names + [u])[..|names|] == names;
  }

  /**
   * Every delivery carries `frame`; every connected named user gets one, on
   * its own socket; when all are connected the deliveries follow `names`.
   */
  lemma {:induction false} DeliveriesToMembers(names: seq<string>, connected: map<string, ConnId>, frame: ServerFrame)
    ensures forall x :: x in DeliveriesTo(names, connected, frame) ==> x.frame == frame
    ensures forall u :: u in names && u in connected ==> Delivery(connected[u], frame) in DeliveriesTo(names, connected, frame)
    ensures (forall u :: u in names ==> u in connected) ==>
              |DeliveriesTo(names, connected, frame)| == |names|
              && forall i :: 0 <= i < |names| ==> DeliveriesTo(names, connected, frame)[i] == Delivery(connected[names[i]], frame)
  {
    if names != [] {
      var init, last := names[..|names| - 1], names[|names| - 1];
      assert names == init + [last];
      DeliveriesToMembers(init, connected, frame);
    }
  }

  /** `list(set(xs))`: every element once. Python's set order is unspecified; this keeps first occurrences. */
  function Dedup<T(==, !new)>(xs: seq<T>): (r: seq<T>)
    ensures Distinct(r)
    ensures forall x :: x in r <==> x in xs
  {
    if xs == [] then []
    else
      var init, last := xs[..|xs| - 1], xs[|xs| - 1];
      assert xs == init + [last];
      var r := Dedup(init);
      if last in r then r else r + [last]
  }

  function Somes(xs: seq<string>): (r: seq<Option<string>>)
    ensures |r| == |xs| && forall i :: 0 <= i < |xs| ==> r[i] == Some(xs[i])
  {
    seq(|xs|, i requires 0 <= i < |xs| => Some(xs[i]))
  }

  /** `list(set(members + [creator]))`: the group's member list. */
  function GroupMembers(members: seq<string>, creator: Option<string>): (r: seq<Option<string>>)
    ensures Distinct(r)
    ensures creator in r && forall m :: m in members ==> Some(m) in r
    ensures forall x :: x in r ==> x == creator || (x.Some? && x.value in members)
  {
    var all := Somes(members) + [creator];
    assert forall m :: m in members ==> Some(m) in Somes(members);
    Dedup(all)
  }

  // ---------------------------------------------------------------------
  // Read receipts

  /** The messages `mark_as_read` flips: those sent by `sender` to `reader`. */
  predicate IsReceiptFor(m: Message, reader: string, sender: string) {
    m.Direct? && m.to == reader && m.from == sender
  }

  /** `msg['read'] = True`. */
  function WithRead(m: Message): Message {
    match m
    case Direct(from, to, content, contentType, timestamp, _) => Direct(from, to, content, contentType, timestamp, true)
    case Grouped(sender, groupId, content, contentType, timestamp, _) =>
      Grouped(sender, groupId, content, contentType, timestamp, true)
  }

  /** The conversation after the read receipt of `reader` for `sender`'s messages. */
  function MarkedRead(msgs: seq<Message>, reader: string, sender: string): seq<Message> {
    seq(|msgs|, i requires 0 <= i < |msgs| =>
      if IsReceiptFor(msgs[i], reader, sender) then WithRead(msgs[i]) else msgs[i])
  }

  /**
   * Exactly the messages from `sender` to `reader` become read; every other
   * message, and every other field, is as before.
   */
  lemma MarkedReadEffect(msgs: seq<Message>, reader: string, sender: string)
    ensures |MarkedRead(msgs, reader, sender)| == |msgs|
    ensures forall i :: 0 <= i < |msgs| && IsReceiptFor(msgs[i], reader, sender) ==>
              MarkedRead(msgs, reader, sender)[i] == WithRead(msgs[i])
    ensures forall i :: 0 <= i < |msgs| && !IsReceiptFor(msgs[i], reader, sender) ==>
              MarkedRead(msgs, reader, sender)[i] == msgs[i]
  {
  }

  /** Marking twice is marking once. */
  lemma MarkedReadIdempotent(msgs: seq<Message>, reader: string, sender: string)
    ensures MarkedRead(MarkedRead(msgs, reader, sender), reader, sender) == MarkedRead(msgs, reader, sender)
  {
  }

  // ---------------------------------------------------------------------
  // The message store

  /** `messages_store.get(key, [])`. */
  function StoredAt(store: map<string, seq<Message>>, key: string): seq<Message> {
    if key in store then store[key] else []
  }

  datatype Group = Group(id: string, name: string, members: seq<Option<string>>, creator: Option<string>)

  /** A group message is stored under its own group, which exists. */
  predicate StoredUnder(key: string, m: Message, groups: map<string, Group>) {
    m.Grouped? ==> key == m.groupId && m.groupId in groups
  }

  /**
   * `order` lists each online name once, and only online names; every
   * online name passed the registration checks.
   */
  ghost predicate SessionsValid(order: seq<string>, connected: map<string, ConnId>) {
    && Distinct(order)
    && (forall u :: u in order <==> u in connected)
    && (forall u :: u in connected ==> IsAcceptedNickname(u))
  }

  /** A successful registration keeps the online list consistent. */
  lemma LoginKeepsSessionsValid(order: seq<string>, connected: map<string, ConnId>, name: string, ws: ConnId,
                                order': seq<string>)
    requires SessionsValid(order, connected) && IsAcceptedNickname(name)
    requires order' == if name in connected then order else order + [name]
    ensures SessionsValid(order', connected[name := ws])
  {
  }

  /** Removing a name on disconnect keeps the online list consistent. */
  lemma LogoutKeepsSessionsValid(order: seq<string>, connected: map<string, ConnId>, name: string)
    requires SessionsValid(order, connected)
    ensures SessionsValid(Without(order, name), connected - {name})
  {
    WithoutMembers(order, name);
  }

  /** The group table holds exactly the identifiers handed out so far, each group under its own id with distinct members. */
  ghost predicate GroupsValid(groups: map<string, Group>, counter: nat) {
    && groups.Keys == GroupIds(counter)
    && (forall g :: g in groups ==> groups[g].id == g && Distinct(groups[g].members))
  }

  /**
   * Taking the next counter value gives an identifier not yet in the table,
   * and storing the group under it keeps the table consistent.
   */
  lemma NewGroupKeepsGroupsValid(groups: map<string, Group>, counter: nat, g: Group)
    requires GroupsValid(groups, counter) && g.id == GroupId(counter + 1) && Distinct(g.members)
    ensures g.id !in groups
    ensures GroupsValid(groups[g.id := g], counter + 1)
  {
    LaterGroupIdIsFresh(counter, counter + 1);
  }

  /** Every stored message sits where it belongs. */
  ghost predicate StoreWellFormed(store: map<string, seq<Message>>, groups: map<string, Group>) {
    forall k, i :: k in store && 0 <= i < |store[k]| ==> StoredUnder(k, store[k][i], groups)
  }

  /** Appending a message under the key it belongs to keeps the store well formed. */
  lemma AppendKeepsStoreWellFormed(store: map<string, seq<Message>>, groups: map<string, Group>,
                                   key: string, m: Message)
    requires StoreWellFormed(store, groups) && StoredUnder(key, m, groups)
    ensures StoreWellFormed(store[key := StoredAt(store, key) + [m]], groups)
  {
    var store' := store[key := StoredAt(store, key) + [m]];
    forall k, i | k in store' && 0 <= i < |store'[k]| ensures StoredUnder(k, store'[k][i], groups) {
      if k == key && i == |StoredAt(store, key)| {
        assert store'[k][i] == m;
      } else {
        assert store'[k][i] == store[k][i];
      }
    }
  }

  /** A new group does not move any stored message out of place. */
  lemma AddGroupKeepsStoreWellFormed(store: map<string, seq<Message>>, groups: map<string, Group>, g: Group)
    requires StoreWellFormed(store, groups)
    ensures StoreWellFormed(store, groups[g.id := g])
  {
    forall k, i | k in store && 0 <= i < |store[k]| ensures StoredUnder(k, store[k][i], groups[g.id := g]) {
      assert StoredUnder(k, store[k][i], groups);
    }
  }

  /** `msg['read'] = True` leaves a message where it belongs. */
  lemma MarkKeepsStoreWellFormed(store: map<string, seq<Message>>, groups: map<string, Group>,
                                 key: string, reader: string, sender: string)
    requires StoreWellFormed(store, groups) && key in store
    ensures StoreWellFormed(store[key := MarkedRead(store[key], reader, sender)], groups)
  {
    var store' := store[key := MarkedRead(store[key], reader, sender)];
    forall k, i | k in store' && 0 <= i < |store'[k]| ensures StoredUnder(k, store'[k][i], groups) {
      assert StoredUnder(k, store[k][i], groups);
    }
  }

  /**
   * Under a one-to-one key only one-to-one messages are stored, so the
   * `msg['to']` of `handle_mark_as_read` never meets a group message.
   */
  lemma OnlyDirectUnderChatKey(store: map<string, seq<Message>>, groups: map<string, Group>, counter: nat,
                               reader: string, sender: string, i: int)
    requires StoreWellFormed(store, groups) && groups.Keys == GroupIds(counter)
    requires ChatKey(reader, sender) in store && 0 <= i < |store[ChatKey(reader, sender)]|
    ensures store[ChatKey(reader, sender)][i].Direct?
  {
    var key := ChatKey(reader, sender);
    var msg := store[key][i];
    assert StoredUnder(key, msg, groups);
    ChatKeyNeverIssued(reader, sender, counter);
  }

  /**
   * The module-level state of server.py. `connectedUsers` is the dict
   * `connected_users`; because a Python dict remembers insertion order and
   * that order shows in `register_success` and in `broadcast`, its key order
   * is kept in `onlineOrder`.
   */
  class ChatServer {
    var connectedUsers: map<string, ConnId>
    var onlineOrder: seq<string>
    var userIds: map<string, string>
    var messagesStore: map<string, seq<Message>>
    var groupsStore: map<string, Group>
    var groupCounter: nat
    var outbox: seq<Delivery>

    ghost predicate Valid()
      reads this`onlineOrder, this`connectedUsers, this`groupsStore, this`groupCounter, this`messagesStore
    {
      && SessionsValid(onlineOrder, connectedUsers)
      && GroupsValid(groupsStore, groupCounter)
      && StoreWellFormed(messagesStore, groupsStore)
    }

    constructor ()
      ensures Valid()
      ensures connectedUsers == map[] && onlineOrder == [] && userIds == map[]
      ensures messagesStore == map[] && groupsStore == map[] && groupCounter == 0 && outbox == []
    {
      connectedUsers, onlineOrder, userIds := map[], [], map[];
      messagesStore, groupsStore, groupCounter, outbox := map[], map[], 0, [];
    }

    // --- effects of each handler, as relations between the old and new state

    twostate predicate SameSessions()
      reads this
    {
      connectedUsers == old(connectedUsers) && onlineOrder == old(onlineOrder) && userIds == old(userIds)
    }

    twostate predicate SameContent()
      reads this
    {
      messagesStore == old(messagesStore) && groupsStore == old(groupsStore) && groupCounter == old(groupCounter)
    }

    /** A handler that raised before changing anything, or a frame nobody handles. */
    twostate predicate Untouched()
      reads this
    {
      SameSessions() && SameContent() && outbox == old(outbox)
    }

    /** The effect of a `register` frame whose stripped nickname is `username`. */
    twostate predicate RegisterDone(ws: ConnId, username: string, userId: string)
      reads this
    {
      match RegisterRejection(username, userId, old(connectedUsers), old(userIds))
      case Some(err) =>
        && SameSessions() && SameContent()
        && outbox == old(outbox) + [Delivery(ws, RegisterError(err))]
      case None =>
        && SameContent()
        && connectedUsers == old(connectedUsers)[username := ws]
        && onlineOrder == (if username in old(connectedUsers) then old(onlineOrder) else old(onlineOrder) + [username])
        && userIds == (if userId != "" then old(userIds)[username := userId] else old(userIds))
        && outbox == old(outbox) + [Delivery(ws, RegisterSuccess(username, onlineOrder))]
                    + DeliveriesTo(Without(onlineOrder, username), connectedUsers, UserOnline(username))
    }

    twostate predicate SendMessageDone(to: Option<string>, content: Option<string>, contentType: Field<string>,
                                       timestamp: Field<int>, fromUser: Option<string>, now: int)
      reads this
    {
      && SameSessions() && groupsStore == old(groupsStore) && groupCounter == old(groupCounter)
      && if !(Truthy(to) && Truthy(content) && Truthy(fromUser)) then
           messagesStore == old(messagesStore) && outbox == old(outbox)
         else
           var m := Direct(fromUser.value, to.value, content.value, GetDefault(contentType, DefaultContentType),
                           GetDefault(timestamp, now), false);
           var key := ChatKey(fromUser.value, to.value);
           && messagesStore == old(messagesStore)[key := StoredAt(old(messagesStore), key) + [m]]
           && outbox == old(outbox) + (if to.value in connectedUsers then [Delivery(connectedUsers[to.value], Forwarded(m))] else [])
    }

    twostate predicate MarkAsReadDone(from: Option<string>, currentUser: Option<string>)
      reads this
    {
      && SameSessions() && groupsStore == old(groupsStore) && groupCounter == old(groupCounter)
      && if !Truthy(from) || currentUser.None? then
           messagesStore == old(messagesStore) && outbox == old(outbox)
         else
           var key := ChatKey(currentUser.value, from.value);
           && messagesStore == (if key in old(messagesStore)
                                then old(messagesStore)[key := MarkedRead(old(messagesStore)[key], currentUser.value, from.value)]
                                else old(messagesStore))
           && outbox == old(outbox) + (if from.value in connectedUsers
                                     then [Delivery(connectedUsers[from.value], MessageRead(currentUser.value))] else [])
    }

    /** The effect of a `create_group` frame whose stripped name is `name`. */
    twostate predicate CreateGroupDone(ws: ConnId, name: string, members: seq<string>, creator: Option<string>)
      reads this
    {
      && SameSessions() && messagesStore == old(messagesStore)
      && if name == "" || |members| < 2 then
           && groupsStore == old(groupsStore) && groupCounter == old(groupCounter)
           && outbox == old(outbox) + [Delivery(ws, Error(if name == "" then ErrEmptyGroupName else ErrTooFewMembers))]
         else GroupOpened(name, members, creator)
    }

    /** The success path of `create_group`: a fresh id, the group stored under it, and its online members told. */
    twostate predicate GroupOpened(name: string, members: seq<string>, creator: Option<string>)
      reads this
    {
      var id, all := GroupId(groupCounter), GroupMembers(members, creator);
      && groupCounter == old(groupCounter) + 1
      && id !in old(groupsStore)
      && groupsStore == old(groupsStore)[id := Group(id, name, all, creator)]
      && outbox == old(outbox) + DeliveriesTo(ReachableMembers(all, connectedUsers, {}), connectedUsers,
                                             GroupCreated(id, name, all, creator))
    }

    twostate predicate SendGroupMessageDone(groupId: Option<string>, content: Option<string>,
                                            contentType: Field<string>, timestamp: Field<int>,
                                            fromUser: Option<string>, now: int)
      reads this
    {
      && SameSessions() && groupsStore == old(groupsStore) && groupCounter == old(groupCounter)
      && if !(Truthy(groupId) && Truthy(content)) || groupId.value !in groupsStore
            || fromUser !in groupsStore[groupId.value].members then
           messagesStore == old(messagesStore) && outbox == old(outbox)
         else
           var gid := groupId.value;
           var m := Grouped(fromUser, gid, content.value, GetDefault(contentType, DefaultContentType),
                            GetDefault(timestamp, now), false);
           && messagesStore == old(messagesStore)[gid := StoredAt(old(messagesStore), gid) + [m]]
           && outbox == old(outbox) + DeliveriesTo(ReachableMembers(groupsStore[gid].members, connectedUsers, {fromUser}),
                                                  connectedUsers, Forwarded(m))
    }

    /** The effect of one frame from connection `ws`, whose registered name is `user`. */
    twostate predicate Handled(ws: ConnId, data: ClientFrame, user: Option<string>, now: int)
      reads this
    {
      match data
      case Register(u, id) =>
        if u.Null? then Untouched() else RegisterDone(ws, PyStrip(GetDefault(u, "").value), id.GetOr(""))
      case SendMessage(to, c, ct, ts) => SendMessageDone(to, c, ct, ts, user, now)
      case MarkAsRead(from) => MarkAsReadDone(from, user)
      case CreateGroup(name, members) =>
        if Raises(data, user) then Untouched()
        else CreateGroupDone(ws, PyStrip(GetDefault(name, "").value), GetDefault(members, []).GetOr([]), user)
      case SendGroupMessage(g, c, ct, ts) => SendGroupMessageDone(g, c, ct, ts, user, now)
      case OtherClientFrame(_) => Untouched()
    }

    // --- handlers

    /** `ws.send_json(frame)`: one frame out on connection `conn`. */
    method Send(conn: ConnId, frame: ServerFrame)
      requires Valid()
      modifies this`outbox
      ensures Valid() && outbox == old(outbox) + [Delivery(conn, frame)]
    {
      outbox := outbox + [Delivery(conn, frame)];
    }

    /** `broadcast(frame, exclude)`: the frame to every connected user but `exclude`, in connection order. */
    method Broadcast(frame: ServerFrame, exclude: string)
      requires Valid()
      modifies this`outbox
      ensures Valid()
      ensures outbox == old(outbox) + DeliveriesTo(Without(onlineOrder, exclude), connectedUsers, frame)
    {
      SendToAllBut(onlineOrder, frame, exclude);
    }

    /** The loop of `broadcast` over the connected users `names`, in order. */
    method SendToAllBut(names: seq<string>, frame: ServerFrame, exclude: string)
      requires forall u :: u in names ==> u in connectedUsers
      modifies this`outbox
      ensures outbox == old(outbox) + DeliveriesTo(Without(names, exclude), connectedUsers, frame)
    {
      var i := 0;
      while i < |names|
        invariant 0 <= i <= |names|
        invariant outbox == old(outbox) + DeliveriesTo(Without(names[..i], exclude), connectedUsers, frame)
      {
        var u := names[i];
        WithoutStep(names, i, exclude);
        if u != exclude {
          var sent := DeliveriesTo(Without(names[..i], exclude), connectedUsers, frame);
          DeliveriesToSnoc(Without(names[..i], exclude), u, connectedUsers, frame);
          assert old(outbox) + (sent + [Delivery(connectedUsers[u], frame)]) == outbox + [Delivery(connectedUsers[u], frame)];
          outbox := outbox + [Delivery(connectedUsers[u], frame)];
        }
        i := i + 1;
      }
      assert names[..i] == names;
    }

    /**
     * `handle_register`: read the fields, then check and register. A `null`
     * nickname makes `.strip()` raise before anything changes.
     */
    method HandleRegister(ws: ConnId, rawName: Field<string>, rawUserId: Option<string>) returns (crashed: bool)
      requires Valid()
      modifies this`connectedUsers, this`onlineOrder, this`userIds, this`outbox
      ensures Valid()
      ensures crashed <==> rawName.Null?
      ensures crashed ==> Untouched()
      ensures !crashed ==> RegisterDone(ws, PyStrip(GetDefault(rawName, "").value), rawUserId.GetOr(""))
    {
      var name := GetDefault(rawName, "");
      if name.None? {
        return true;
      }
      crashed := false;
      var username := PyStrip(name.value);
      var userId := rawUserId.GetOr("");
      StripEnds(name.value, IsPyWhitespace);
      CheckAndRegister(ws, username, userId);
    }

    /** The checks of `handle_register` on a stripped nickname, in source order, then the login. */
    method CheckAndRegister(ws: ConnId, username: string, userId: string)
      requires Valid()
      requires username == [] || (!IsPyWhitespace(username[0]) && !IsPyWhitespace(username[|username| - 1]))
      modifies this`connectedUsers, this`onlineOrder, this`userIds, this`outbox
      ensures Valid()
      ensures RegisterDone(ws, username, userId)
    {
      if username == "" {
        Send(ws, RegisterError(ErrEmptyNickname));
        return;
      }
      if |username| > MaxNicknameLength {
        Send(ws, RegisterError(ErrNicknameTooLong));
        return;
      }
      var isReturningUser := userId != "" && username in userIds && userIds[username] == userId;
      if username in connectedUsers && !isReturningUser {
        Send(ws, RegisterError(ErrNicknameTaken));
        return;
      }
      Login(ws, username, userId);
    }

    /**
     * The success path of `handle_register`, for a nickname that passed the
     * checks: the client gets the online list and everybody else is told.
     */
    method Login(ws: ConnId, username: string, userId: string)
      requires Valid() && IsAcceptedNickname(username)
      modifies this`connectedUsers, this`onlineOrder, this`userIds, this`outbox
      ensures Valid()
      ensures connectedUsers == old(connectedUsers)[username := ws]
      ensures onlineOrder == (if username in old(connectedUsers) then old(onlineOrder) else old(onlineOrder) + [username])
      ensures userIds == (if userId != "" then old(userIds)[username := userId] else old(userIds))
      ensures outbox == old(outbox) + [Delivery(ws, RegisterSuccess(username, onlineOrder))]
                        + DeliveriesTo(Without(onlineOrder, username), connectedUsers, UserOnline(username))
      ensures username in onlineOrder
    {
      Enroll(ws, username, userId);
      Send(ws, RegisterSuccess(username, onlineOrder));
      Broadcast(UserOnline(username), username);
    }

    /**
     * `connected_users[username] = ws` (a new name goes to the end of the
     * dict's order) and, for a non-empty `userId`, `user_ids[username] = userId`.
     */
    method Enroll(ws: ConnId, username: string, userId: string)
      requires Valid() && IsAcceptedNickname(username)
      modifies this`connectedUsers, this`onlineOrder, this`userIds
      ensures Valid()
      ensures connectedUsers == old(connectedUsers)[username := ws]
      ensures onlineOrder == (if username in old(connectedUsers) then old(onlineOrder) else old(onlineOrder) + [username])
      ensures userIds == (if userId != "" then old(userIds)[username := userId] else old(userIds))
    {
      if username !in connectedUsers {
        onlineOrder := onlineOrder + [username];
      }
      connectedUsers := connectedUsers[username := ws];
      LoginKeepsSessionsValid(old(onlineOrder), old(connectedUsers), username, ws, onlineOrder);
      if userId != "" {
        userIds := userIds[username := userId];
      }
    }

    /** `handle_send_message`: store one unread message and forward it if the recipient is online. */
    method HandleSendMessage(to: Option<string>, content: Option<string>, contentType: Field<string>,
                             timestamp: Field<int>, fromUser: Option<string>, now: int)
      requires Valid()
      modifies this`messagesStore, this`outbox
      ensures Valid()
      ensures SendMessageDone(to, content, contentType, timestamp, fromUser, now)
    {
      if !Truthy(to) || !Truthy(content) || !Truthy(fromUser) {
        return;
      }
      var key := ChatKey(fromUser.value, to.value);
      var message := Direct(fromUser.value, to.value, content.value, GetDefault(contentType, DefaultContentType),
                            GetDefault(timestamp, now), false);
      AppendKeepsStoreWellFormed(messagesStore, groupsStore, key, message);
      // `messages_store.setdefault(key, []).append(message)`
      messagesStore := messagesStore[key := StoredAt(messagesStore, key) + [message]];
      if to.value in connectedUsers {
        Send(connectedUsers[to.value], Forwarded(message));
      }
    }

    /**
     * `handle_mark_as_read`. With no registered user, `get_chat_key(None, ...)`
     * raises (Python cannot sort None with a string): the handler stops
     * there and `crashed` is true.
     */
    method HandleMarkAsRead(from: Option<string>, currentUser: Option<string>) returns (crashed: bool)
      requires Valid()
      modifies this`messagesStore, this`outbox
      ensures Valid()
      ensures crashed <==> Truthy(from) && currentUser.None?
      ensures MarkAsReadDone(from, currentUser)
    {
      crashed := false;
      if !Truthy(from) {
        return;
      }
      if currentUser.None? {
        crashed := true;
        return;
      }
      var reader, sender := currentUser.value, from.value;
      var key := ChatKey(reader, sender);
      if key in messagesStore {
        MarkKeepsStoreWellFormed(messagesStore, groupsStore, key, reader, sender);
        // A group message would make Python's msg['to'] raise; none is stored under a chat key.
        forall j | 0 <= j < |messagesStore[key]| ensures messagesStore[key][j].Direct? {
          OnlyDirectUnderChatKey(messagesStore, groupsStore, groupCounter, reader, sender, j);
        }
        MarkConversation(key, reader, sender);
      }
      if sender in connectedUsers {
        Send(connectedUsers[sender], MessageRead(reader));
      }
    }

    /** The loop of `handle_mark_as_read` over the direct messages stored under `key`. */
    method MarkConversation(key: string, reader: string, sender: string)
      requires key in messagesStore
      requires forall j :: 0 <= j < |messagesStore[key]| ==> messagesStore[key][j].Direct?
      modifies this`messagesStore
      ensures messagesStore == old(messagesStore)[key := MarkedRead(old(messagesStore)[key], reader, sender)]
    {
      ghost var msgs := messagesStore[key];
      var i := 0;
      while i < |messagesStore[key]|
        invariant key in messagesStore && |messagesStore[key]| == |msgs|
        invariant 0 <= i <= |msgs|
        invariant forall j :: 0 <= j < i ==> messagesStore[key][j] == MarkedRead(msgs, reader, sender)[j]
        invariant forall j :: i <= j < |msgs| ==> messagesStore[key][j] == msgs[j]
        invariant messagesStore == old(messagesStore)[key := messagesStore[key]]
      {
        var msg := messagesStore[key][i];
        if msg.to == reader && msg.from == sender {
          messagesStore := messagesStore[key := messagesStore[key][i := WithRead(msg)]];
        }
        i := i + 1;
      }
      assert messagesStore[key] == MarkedRead(msgs, reader, sender);
    }

    /**
     * `handle_create_group`: read the fields, then validate and create. A
     * `null` name makes `.strip()` raise, and a `null` member list behind a
     * non-blank name makes `len` raise, in both cases before anything changes.
     */
    method HandleCreateGroup(ws: ConnId, nameField: Field<string>, membersField: Field<seq<string>>,
                             creator: Option<string>) returns (crashed: bool)
      requires Valid()
      modifies this`groupsStore, this`groupCounter, this`outbox
      ensures Valid()
      ensures crashed <==> Raises(CreateGroup(nameField, membersField), creator)
      ensures crashed ==> Untouched()
      ensures !crashed ==> CreateGroupDone(ws, PyStrip(GetDefault(nameField, "").value),
                                           GetDefault(membersField, []).GetOr([]), creator)
    {
      // The empty-name check comes first in the source, so `len(None)` is reached only behind a non-blank name.
      crashed := Raises(CreateGroup(nameField, membersField), creator);
      if crashed {
        return;
      }
      CheckAndCreateGroup(ws, PyStrip(GetDefault(nameField, "").value), GetDefault(membersField, []).GetOr([]), creator);
    }

    /** The checks of `handle_create_group` on the stripped name and the member list, then the group. */
    method CheckAndCreateGroup(ws: ConnId, groupName: string, members: seq<string>, creator: Option<string>)
      requires Valid()
      modifies this`groupsStore, this`groupCounter, this`outbox
      ensures Valid()
      ensures CreateGroupDone(ws, groupName, members, creator)
    {
      if groupName == "" {
        Send(ws, Error(ErrEmptyGroupName));
        return;
      }
      if |members| < 2 {
        Send(ws, Error(ErrTooFewMembers));
        return;
      }
      OpenGroup(groupName, members, creator);
    }

    /**
     * The success path of `handle_create_group`: the counter moves on, the
     * new identifier is one never handed out before, the group is stored
     * with `list(set(members + [creator]))` and every online member is told.
     */
    method OpenGroup(name: string, members: seq<string>, creator: Option<string>)
      requires Valid()
      modifies this`groupsStore, this`groupCounter, this`outbox
      ensures Valid()
      ensures GroupOpened(name, members, creator)
    {
      var groupId := GroupId(groupCounter + 1);
      var allMembers := GroupMembers(members, creator);
      var group := Group(groupId, name, allMembers, creator);
      NewGroupKeepsGroupsValid(groupsStore, groupCounter, group);
      AddGroupKeepsStoreWellFormed(messagesStore, groupsStore, group);
      groupCounter := groupCounter + 1;
      groupsStore := groupsStore[groupId := group];
      NotifyMembers(allMembers, {}, GroupCreated(groupId, name, allMembers, creator));
    }

    /** The fan-out loop shared by group creation and group messages. */
    method NotifyMembers(members: seq<Option<string>>, except: set<Option<string>>, frame: ServerFrame)
      requires Valid()
      modifies this`outbox
      ensures Valid()
      ensures outbox == old(outbox) + DeliveriesTo(ReachableMembers(members, connectedUsers, except), connectedUsers, frame)
    {
      var i := 0;
      while i < |members|
        invariant 0 <= i <= |members|
        invariant outbox == old(outbox) + DeliveriesTo(ReachableMembers(members[..i], connectedUsers, except), connectedUsers, frame)
      {
        var member := members[i];
        ReachableMembersStep(members, i, connectedUsers, except);
        if member !in except && member.Some? && member.value in connectedUsers {
          var sent := DeliveriesTo(ReachableMembers(members[..i], connectedUsers, except), connectedUsers, frame);
          var d := Delivery(connectedUsers[member.value], frame);
          DeliveriesToSnoc(ReachableMembers(members[..i], connectedUsers, except), member.value, connectedUsers, frame);
          assert old(outbox) + (sent + [d]) == outbox + [d];
          outbox := outbox + [d];
        }
        i := i + 1;
      }
      assert members[..i] == members;
    }

    /** `handle_send_group_message`: only a member may post; every other online member receives it. */
    method HandleSendGroupMessage(groupId: Option<string>, content: Option<string>, contentType: Field<string>,
                                  timestamp: Field<int>, fromUser: Option<string>, now: int)
      requires Valid()
      modifies this`messagesStore, this`outbox
      ensures Valid()
      ensures SendGroupMessageDone(groupId, content, contentType, timestamp, fromUser, now)
    {
      if !Truthy(groupId) || !Truthy(content) {
        return;
      }
      var gid := groupId.value;
      if gid !in groupsStore {
        return;
      }
      var group := groupsStore[gid];
      if fromUser !in group.members {
        return;
      }
      var message := Grouped(fromUser, gid, content.value, GetDefault(contentType, DefaultContentType),
                             GetDefault(timestamp, now), false);
      AppendKeepsStoreWellFormed(messagesStore, groupsStore, gid, message);
      // `messages_store.setdefault(key, []).append(message)`
      messagesStore := messagesStore[gid := StoredAt(messagesStore, gid) + [message]];
      NotifyMembers(group.members, {fromUser}, Forwarded(message));
    }

    /** `handle_message`: dispatch on the frame's type; unknown types are ignored. */
    method HandleMessage(ws: ConnId, data: ClientFrame, currentUsername: Option<string>, now: int)
      returns (crashed: bool)
      requires Valid()
      modifies this
      ensures Valid()
      ensures crashed <==> Raises(data, currentUsername)
      ensures Handled(ws, data, currentUsername, now)
    {
      crashed := false;
      match data
      case Register(u, id) => crashed := HandleRegister(ws, u, id);
      case SendMessage(to, c, ct, ts) => HandleSendMessage(to, c, ct, ts, currentUsername, now);
      case MarkAsRead(from) => crashed := HandleMarkAsRead(from, currentUsername);
      case CreateGroup(name, members) => crashed := HandleCreateGroup(ws, name, members, currentUsername);
      case SendGroupMessage(g, c, ct, ts) => HandleSendGroupMessage(g, c, ct, ts, currentUsername, now);
      case OtherClientFrame(_) =>
    }

    /**
     * One iteration of `websocket_handler`'s receive loop for a connection
     * whose local `username` is `username`. After handling the frame, any
     * `register` frame fixes the connection's name if it had none yet, with
     * the raw (unstripped) name and whether or not registration succeeded.
     * A handler that raised ends the loop: `closed`.
     */
    method ReceiveFrame(ws: ConnId, username: Option<string>, data: ClientFrame, now: int)
      returns (username': Option<string>, closed: bool)
      requires Valid()
      modifies this
      ensures Valid()
      ensures closed <==> Raises(data, username)
      ensures username' == if !closed && data.Register? && username.None? then Get(data.username) else username
      ensures Handled(ws, data, username, now)
    {
      closed := HandleMessage(ws, data, username, now);
      username' := username;
      if !closed && data.Register? && username.None? {
        username' := Get(data.username);
      }
    }

    /**
     * The `finally` block of `websocket_handler`: the connection's name is
     * removed from `connected_users`, whichever connection holds it, and the
     * others are told it went offline.
     */
    method Disconnect(username: Option<string>)
      requires Valid()
      modifies this`connectedUsers, this`onlineOrder, this`outbox
      ensures Valid()
      ensures SameContent() && userIds == old(userIds)
      ensures if Truthy(username) && username.value in old(connectedUsers) then
                && connectedUsers == old(connectedUsers) - {username.value}
                && onlineOrder == Without(old(onlineOrder), username.value)
                && outbox == old(outbox) + DeliveriesTo(Without(onlineOrder, username.value), connectedUsers,
                                                       UserOffline(username.value))
              else connectedUsers == old(connectedUsers) && onlineOrder == old(onlineOrder) && outbox == old(outbox)
    {
      if Truthy(username) && username.value in connectedUsers {
        var name := username.value;
        Leave(name);
        Broadcast(UserOffline(name), name);
      }
    }

    /** `del connected_users[username]`. */
    method Leave(name: string)
      requires Valid()
      modifies this`connectedUsers, this`onlineOrder
      ensures Valid()
      ensures connectedUsers == old(connectedUsers) - {name} && onlineOrder == Without(old(onlineOrder), name)
    {
      connectedUsers := connectedUsers - {name};
      onlineOrder := Without(onlineOrder, name);
      LogoutKeepsSessionsValid(old(onlineOrder), old(connectedUsers), name);
    }

    /**
     * A `register` frame for a name already online, without the matching
     * `userId`, on a connection that has no name yet: it is refused, the
     * online users stay as they were, and yet the connection takes the name.
     */
    method RefusedDuplicate(ws: ConnId, name: string) returns (username: Option<string>)
      requires Valid() && name in connectedUsers
      modifies this
      ensures Valid()
      ensures username == Some(name)
      ensures SameSessions() && SameContent()
      ensures outbox == old(outbox) + [Delivery(ws, RegisterError(ErrNicknameTaken))]
    {
      assert IsAcceptedNickname(name);
      StripUnchanged(name, IsPyWhitespace);
      assert PyStrip(GetDefault(Given(name), "").value) == name;
      RegisterTakenName(name, "", connectedUsers, userIds);
      var closed;
      username, closed := ReceiveFrame(ws, None, Register(Given(name), None), 0);
    }

    /**
     * The eviction that follows: when the refused connection closes, its
     * `finally` block takes the holder's entry out of `connected_users`.
     */
    method DuplicateRegisterEvictsHolder(ws: ConnId, name: string) returns (username: Option<string>)
      requires Valid() && name in connectedUsers
      modifies this
      ensures Valid()
      ensures username == Some(name)
      ensures name !in connectedUsers && connectedUsers == old(connectedUsers) - {name}
    {
      username := RefusedDuplicate(ws, name);
      Disconnect(username);
    }

    /**
     * A `create_group` frame with a `null` name raises in the handler:
     * nothing is created, the receive loop ends, and the `finally` block
     * logs the sender out.
     */
    method NullGroupNameLogsOut(ws: ConnId, name: string, members: Field<seq<string>>)
      requires Valid() && name in connectedUsers
      modifies this
      ensures Valid()
      ensures SameContent() && userIds == old(userIds)
      ensures connectedUsers == old(connectedUsers) - {name} && onlineOrder == Without(old(onlineOrder), name)
    {
      assert IsAcceptedNickname(name);
      var username, closed := ReceiveFrame(ws, Some(name), CreateGroup(Null, members), 0);
      Disconnect(username);
    }

    /**
     * A nickname typed with leading whitespace is registered stripped, while
     * the connection remembers it raw; no online name starts with
     * whitespace, so the raw name is never found and the disconnect leaves
     * the registered entry in place.
     */
    method PaddedNameOutlivesConnection(ws: ConnId, raw: string) returns (username: Option<string>)
      requires Valid() && raw != [] && IsPyWhitespace(raw[0])
      modifies this
      ensures Valid()
      ensures username == Some(raw)
      ensures connectedUsers == if RegisterRejection(PyStrip(raw), "", old(connectedUsers), old(userIds)) == None
                                then old(connectedUsers)[PyStrip(raw) := ws] else old(connectedUsers)
    {
      var closed;
      username, closed := ReceiveFrame(ws, None, Register(Given(raw), None), 0);
      assert !IsAcceptedNickname(raw);
      Disconnect(username);
    }
  }
}
