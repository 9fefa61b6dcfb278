/**
 * The JSON frames exchanged over the chat's WebSocket, one constructor per
 * `type` value. A field the server reads with a default,
 * `data.get(key, default)`, is a `Field`: a missing key gives the default,
 * while a key present with `null` gives `None`. A field read without a
 * default, or one whose `null` behaves exactly like its default, is an
 * `Option` whose `None` is the missing key or `null`.
 */
module Protocol {
  import opened Wrappers

  /** A WebSocket connection, identified abstractly. */
  type ConnId = nat

  /** One key of a JSON object: left out, present with `null`, or present with a value. */
  datatype Field<T> = Missing | Null | Given(value: T)

  /** `data.get(key)`: `None` for a missing key and for `null`. */
  function Get<T>(f: Field<T>): Option<T> {
    if f.Given? then Some(f.value) else None
  }

  /** `data.get(key, default)`: the default for a missing key, but `None` for `null`. */
  function GetDefault<T>(f: Field<T>, default: T): Option<T> {
    match f
    case Missing => Some(default)
    case Null => None
    case Given(v) => Some(v)
  }

  /** The two reads differ exactly on a missing key. */
  lemma GetDefaultOnlyAddsDefault<T>(f: Field<T>, default: T)
    ensures GetDefault(f, default) == (if f.Missing? then Some(default) else Get(f))
    ensures GetDefault(f, default).None? <==> f.Null?
  {
  }

  /** Frames a client sends and the server reads. */
  datatype ClientFrame =
    | Register(username: Field<string>, userId: Option<string>)
    | SendMessage(to: Option<string>, content: Option<string>, contentType: Field<string>, timestamp: Field<int>)
    | MarkAsRead(from: Option<string>)
    | CreateGroup(name: Field<string>, members: Field<seq<string>>)
    | SendGroupMessage(groupId: Option<string>, content: Option<string>, contentType: Field<string>, timestamp: Field<int>)
      /** Any other `type`: the server's dispatch ignores it. */
    | OtherClientFrame(kind: string)

  /**
   * A message record the server stores. A one-to-one message names its
   * recipient; a group message names its group, and its sender is whatever
   * the sending connection was registered as (possibly nothing). The
   * content type and timestamp are `None` when the frame had them as `null`.
   */
  datatype Message =
    | Direct(from: string, to: string, content: string, contentType: Option<string>, timestamp: Option<int>, read: bool)
    | Grouped(sender: Option<string>, groupId: string, content: string, contentType: Option<string>, timestamp: Option<int>, read: bool)

  /** Frames the server sends and a client reads. */
  datatype ServerFrame =
    | RegisterSuccess(username: string, users: seq<string>)
    | RegisterError(message: string)
    | UsersList(users: seq<string>)
    | NewMessage(from: string, to: string, content: string, contentType: Option<string>, timestamp: Option<int>, read: bool)
    | NewGroupMessage(sender: Option<string>, groupId: string, content: string, contentType: Option<string>, timestamp: Option<int>, read: bool)
    | MessageRead(user: string)
    | UserOnline(username: string)
    | UserOffline(username: string)
    | GroupCreated(groupId: string, name: string, members: seq<Option<string>>, creator: Option<string>)
    | Error(message: string)

  /** `{'type': 'new_message', **message}` / `{'type': 'new_group_message', **message}`. */
  function Forwarded(m: Message): (f: ServerFrame)
    ensures m.Direct? ==> f.NewMessage? && f.from == m.from && f.to == m.to
    ensures m.Grouped? ==> f.NewGroupMessage? && f.sender == m.sender && f.groupId == m.groupId
    ensures f.content == m.content && f.contentType == m.contentType
    ensures f.timestamp == m.timestamp && f.read == m.read
  {
    match m
    case Direct(from, to, content, contentType, timestamp, read) =>
      NewMessage(from, to, content, contentType, timestamp, read)
    case Grouped(sender, groupId, content, contentType, timestamp, read) =>
      NewGroupMessage(sender, groupId, content, contentType, timestamp, read)
  }

  /** The stored message a `new_message` or `new_group_message` frame carries; no other frame carries one. */
  function Carried(f: ServerFrame): Option<Message> {
    match f
    case NewMessage(from, to, content, contentType, timestamp, read) =>
      Some(Direct(from, to, content, contentType, timestamp, read))
    case NewGroupMessage(sender, groupId, content, contentType, timestamp, read) =>
      Some(Grouped(sender, groupId, content, contentType, timestamp, read))
    case _ => None
  }

  /**
   * `**message` loses nothing: the receiver recovers the stored message
   * from the forwarded frame, and every frame that carries a message is
   * the forwarding of that message.
   */
  lemma ForwardedRoundTrip(m: Message, f: ServerFrame)
    ensures Carried(Forwarded(m)) == Some(m)
    ensures Carried(f).Some? ==> Forwarded(Carried(f).value) == f
  {
  }

  /** One frame handed to one connection's `send_json`. */
  datatype Delivery = Delivery(conn: ConnId, frame: ServerFrame)

  /** Python truthiness of an optional string: present and non-empty. */
  predicate Truthy(s: Option<string>) {
    s.Some? && s.value != ""
  }
}
