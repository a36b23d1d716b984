/**
 Support conversations: message times, read positions and unread counts under a clock that may
 stand still or go backwards.
 */
module SupportChat {
  import opened Wrappers

  datatype Side = User | Admin

  datatype Actor = Actor(side: Side, id: nat)

  datatype Status = Open | InProgress | Resolved | Closed

  /** `clientId` is the identifier a client sends so that a retry is recognised. */
  datatype Message = Message(conversation: nat, sender: Actor, content: string, clientId: Option<string>, initial: bool, createdAt: int)

  datatype Conversation = Conversation(user: nat, subject: string, createdBy: Actor, status: Status, lastMessageAt: int, positions: map<Actor, int>)

  datatype Desk = Desk(conversations: seq<Conversation>, messages: seq<Message>)

  datatype Error = NotFound | IdReused | ConversationClosed

  predicate MaySee(c: Conversation, a: Actor) { a.side == User ==> c.user == a.id }

  function Visible(d: Desk, a: Actor, c: nat): bool { c < |d.conversations| && MaySee(d.conversations[c], a) }

  /** The unique key on the client's identifier. */
  function ByClientId(messages: seq<Message>, id: string): (r: Option<nat>)
    ensures r.Some? ==> r.value < |messages| && messages[r.value].clientId == Some(id)
    ensures r.None? ==> forall m <- messages :: m.clientId != Some(id)
  {
    if messages == [] then None else
      var n := |messages| - 1;
      if messages[n].clientId == Some(id) then Some(n) else ByClientId(messages[..n], id)
  }

  function Duplicate(d: Desk, clientId: Option<string>): (r: Option<nat>)
    ensures r.Some? ==> r.value < |d.messages|
  {
    if clientId.None? then None else ByClientId(d.messages, clientId.value)
  }

  // ---------- Transactions ----------

  datatype Reply = Reply(desk: Desk, message: nat, created: bool)

  function IsExactStart(d: Desk, m: Message, a: Actor, user: nat, subject: string, content: string): bool {
    && m.initial && m.sender == a && m.content == content
    && m.conversation < |d.conversations|
    && var c := d.conversations[m.conversation]; c.createdBy == a && c.user == user && c.subject == subject
  }

  function Create(d: Desk, a: Actor, user: nat, active: bool, subject: string, content: string, clientId: Option<string>, clock: int): Result<Reply, Error> {
    match Duplicate(d, clientId)
    case Some(k) => if IsExactStart(d, d.messages[k], a, user, subject, content) then Success(Reply(d, k, false)) else Failure(IdReused)
    case None =>
      if !active then Failure(NotFound) else
      var c := Conversation(user, subject, a, Open, clock, map[a := clock]);
      Success(Reply(Desk(d.conversations + [c], d.messages + [Message(|d.conversations|, a, content, clientId, true, clock)]), |d.messages|, true))
  }

  function StatusAfter(s: Status, side: Side): Status {
    if s == Resolved then (if side == Admin then InProgress else Open)
    else if s == Open && side == Admin then InProgress else s
  }

  function IsExactSend(m: Message, a: Actor, c: nat, content: string): bool {
    !m.initial && m.conversation == c && m.sender == a && m.content == content
  }

  /** The time of a new message: the clock, pushed past the last message of the conversation. */
  function Send(d: Desk, a: Actor, c: nat, content: string, clientId: Option<string>, clock: int): Result<Reply, Error> {
    if !Visible(d, a, c) then Failure(NotFound) else
    match Duplicate(d, clientId)
    case Some(k) => if IsExactSend(d.messages[k], a, c, content) then Success(Reply(d, k, false)) else Failure(IdReused)
    case None =>
      var conv := d.conversations[c];
      if conv.status == Closed then Failure(ConversationClosed) else
      var now := Max(clock, conv.lastMessageAt + 1);
      var next := conv.(lastMessageAt := now, status := StatusAfter(conv.status, a.side), positions := conv.positions[a := now]);
      Success(Reply(Desk(d.conversations[c := next], d.messages + [Message(c, a, content, clientId, false, now)]), |d.messages|, true))
  }

  /** The latest message time of a conversation. */
  function Latest(messages: seq<Message>, c: nat): Option<int> {
    if messages == [] then None else
      var m := messages[|messages| - 1];
      var earlier := Latest(messages[..|messages| - 1], c);
      if m.conversation != c then earlier
      else Some(if earlier.Some? && earlier.value > m.createdAt then earlier.value else m.createdAt)
  }

  /** Marks everything up to a message read, or everything when no message is named. */
  function MarkRead(d: Desk, a: Actor, c: nat, message: Option<nat>, clock: int): Result<Desk, Error> {
    if !Visible(d, a, c) then Failure(NotFound)
    else if message.Some? && (message.value >= |d.messages| || d.messages[message.value].conversation != c) then Failure(NotFound)
    else
      var target := if message.Some? then d.messages[message.value].createdAt
                    else if Latest(d.messages, c).Some? then Latest(d.messages, c).value else clock;
      var conv := d.conversations[c];
      var readAt := if a in conv.positions && conv.positions[a] > target then conv.positions[a] else target;
      Success(d.(conversations := d.conversations[c := conv.(positions := conv.positions[a := readAt])]))
  }

  function ChangeStatus(d: Desk, a: Actor, c: nat, status: Status): Result<Desk, Error> {
    if !Visible(d, a, c) then Failure(NotFound)
    else Success(d.(conversations := d.conversations[c := d.conversations[c].(status := status)]))
  }

  predicate IsUnread(m: Message, conv: Conversation, a: Actor, c: nat) {
    m.conversation == c && m.sender.side != a.side && (a !in conv.positions || m.createdAt > conv.positions[a])
  }

  function Unread(d: Desk, a: Actor, c: nat): nat
    requires c < |d.conversations|
  {
    CountUnread(d.messages, d.conversations[c], a, c)
  }

  function CountUnread(messages: seq<Message>, conv: Conversation, a: Actor, c: nat): nat {
    if messages == [] then 0 else
      CountUnread(messages[..|messages| - 1], conv, a, c) + if IsUnread(messages[|messages| - 1], conv, a, c) then 1 else 0
  }

  // ---------- The invariant ----------

  /** Times of one conversation strictly increase along the log. */
  ghost predicate TimesIncrease(messages: seq<Message>) {
    forall j, k | 0 <= j < k < |messages| && messages[j].conversation == messages[k].conversation :: messages[j].createdAt < messages[k].createdAt
  }

  ghost predicate ClientIdsUnique(messages: seq<Message>) {
    forall j, k | 0 <= j < k < |messages| :: messages[j].clientId == messages[k].clientId ==> messages[j].clientId.None?
  }

  ghost predicate ConversationOk(d: Desk, c: nat)
    requires c < |d.conversations|
  {
    var conv := d.conversations[c];
    && (exists m <- d.messages :: m.conversation == c && m.createdAt == conv.lastMessageAt)
    && (forall m <- d.messages :: m.conversation == c ==> m.createdAt <= conv.lastMessageAt)
    && (forall a <- conv.positions :: conv.positions[a] <= conv.lastMessageAt)
  }

  ghost predicate Inv(d: Desk) {
    && TimesIncrease(d.messages) && ClientIdsUnique(d.messages)
    && (forall m <- d.messages :: m.conversation < |d.conversations|)
    && (forall c | 0 <= c < |d.conversations| :: ConversationOk(d, c))
  }

  /** Read positions only move forward, messages are only added, and a conversation keeps its owner, subject and author. */
  ghost predicate Later(d: Desk, e: Desk) {
    && |e.conversations| >= |d.conversations| && |e.messages| >= |d.messages| && e.messages[..|d.messages|] == d.messages
    && (forall c | 0 <= c < |d.conversations| ::
          && e.conversations[c].user == d.conversations[c].user && e.conversations[c].subject == d.conversations[c].subject
          && e.conversations[c].createdBy == d.conversations[c].createdBy
          && e.conversations[c].lastMessageAt >= d.conversations[c].lastMessageAt
          && forall a <- d.conversations[c].positions :: a in e.conversations[c].positions && e.conversations[c].positions[a] >= d.conversations[c].positions[a])
  }

  lemma OthersOk(d: Desk, e: Desk, c: nat, k: nat)
    requires Inv(d) && k < |d.conversations| <= |e.conversations| && e.conversations[k] == d.conversations[k] && c != k
    requires |e.messages| >= |d.messages| && e.messages[..|d.messages|] == d.messages
    requires forall m <- e.messages[|d.messages|..] :: m.conversation == c
    ensures ConversationOk(e, k)
  {
    assert ConversationOk(d, k);
    assert e.messages == d.messages + e.messages[|d.messages|..];
  }

  lemma AppendedMessage(messages: seq<Message>, m: Message)
    requires TimesIncrease(messages) && ClientIdsUnique(messages)
    requires forall x <- messages :: x.conversation == m.conversation ==> x.createdAt < m.createdAt
    requires m.clientId.Some? ==> forall x <- messages :: x.clientId != m.clientId
    ensures TimesIncrease(messages + [m]) && ClientIdsUnique(messages + [m])
  {
  }

  /** One more message, later than every other of its conversation, keeps the desk in order. */
  lemma AddedKeepsInv(d: Desk, e: Desk, c: nat, m: Message)
    requires Inv(d) && e.messages == d.messages + [m] && m.conversation == c < |e.conversations| && |e.conversations| >= |d.conversations| >= c
    requires |e.conversations| == if c < |d.conversations| then |d.conversations| else c + 1
    requires forall k | 0 <= k < |d.conversations| && k != c :: e.conversations[k] == d.conversations[k]
    requires forall x <- d.messages :: x.conversation == c ==> x.createdAt < m.createdAt
    requires m.clientId.Some? ==> forall x <- d.messages :: x.clientId != m.clientId
    requires e.conversations[c].lastMessageAt == m.createdAt
    requires forall a <- e.conversations[c].positions :: e.conversations[c].positions[a] <= m.createdAt
    ensures Inv(e)
  {
    AppendedMessage(d.messages, m);
    assert e.messages[|d.messages|..] == [m];
    forall k | 0 <= k < |e.conversations| ensures ConversationOk(e, k) {
      if k != c { OthersOk(d, e, c, k); } else { assert m in e.messages; }
    }
  }

  /** An actor whose position is at the last message has nothing unread. */
  lemma UpToDate(d: Desk, a: Actor, c: nat)
    requires Inv(d) && c < |d.conversations| && a in d.conversations[c].positions
    requires d.conversations[c].positions[a] == d.conversations[c].lastMessageAt
    ensures Unread(d, a, c) == 0
  {
    assert ConversationOk(d, c);
    NothingUnread(d.messages, d.conversations[c], a, c);
  }

  lemma CreateKeepsInv(d: Desk, a: Actor, user: nat, active: bool, subject: string, content: string, clientId: Option<string>, clock: int)
    requires Inv(d) && Create(d, a, user, active, subject, content, clientId, clock).Success?
    ensures var r := Create(d, a, user, active, subject, content, clientId, clock).value;
            && Inv(r.desk) && Later(d, r.desk) && r.message < |r.desk.messages|
            && r.desk.messages[r.message].sender == a && r.desk.messages[r.message].content == content
            && (r.created ==> Unread(r.desk, a, |d.conversations|) == 0)
  {
    var r := Create(d, a, user, active, subject, content, clientId, clock).value;
    if r.created {
      AddedKeepsInv(d, r.desk, |d.conversations|, r.desk.messages[|d.messages|]);
      UpToDate(r.desk, a, |d.conversations|);
    }
  }

  /** A time after the last message is after every message and every read position of the conversation. */
  lemma PastAll(d: Desk, c: nat, at: int)
    requires Inv(d) && c < |d.conversations| && at > d.conversations[c].lastMessageAt
    ensures forall x <- d.messages :: x.conversation == c ==> x.createdAt < at
    ensures forall a <- d.conversations[c].positions :: d.conversations[c].positions[a] < at
  {
    assert ConversationOk(d, c);
  }

  lemma SendKeepsInv(d: Desk, a: Actor, c: nat, content: string, clientId: Option<string>, clock: int)
    requires Inv(d) && Send(d, a, c, content, clientId, clock).Success?
    ensures var r := Send(d, a, c, content, clientId, clock).value;
            && Inv(r.desk) && Later(d, r.desk) && r.message < |r.desk.messages|
            && r.desk.messages[r.message].sender == a && r.desk.messages[r.message].content == content
            && (r.created ==> r.desk.messages[r.message].createdAt > d.conversations[c].lastMessageAt && Unread(r.desk, a, c) == 0)
  {
    var r := Send(d, a, c, content, clientId, clock).value;
    if r.created {
      var m := r.desk.messages[|d.messages|];
      PastAll(d, c, m.createdAt);
      AddedKeepsInv(d, r.desk, c, m);
      UpToDate(r.desk, a, c);
    }
  }

  lemma {:induction false} NothingUnread(messages: seq<Message>, conv: Conversation, a: Actor, c: nat)
    requires forall m <- messages :: !IsUnread(m, conv, a, c)
    ensures CountUnread(messages, conv, a, c) == 0
  {
    if messages != [] {
      NothingUnread(messages[..|messages| - 1], conv, a, c);
      assert messages[|messages| - 1] in messages;
    }
  }

  lemma {:induction false} LatestIs(messages: seq<Message>, c: nat, at: int)
    requires (forall m <- messages :: m.conversation == c ==> m.createdAt <= at)
    ensures Latest(messages, c).None? ==> forall m <- messages :: m.conversation != c
    ensures Latest(messages, c).Some? ==> Latest(messages, c).value <= at
    ensures (exists m <- messages :: m.conversation == c && m.createdAt == at) ==> Latest(messages, c) == Some(at)
  {
    if messages != [] {
      var front := messages[..|messages| - 1];
      assert messages == front + [messages[|messages| - 1]];
      LatestIs(front, c, at);
    }
  }

  /** Marking everything read leaves nothing unread; naming a message leaves exactly the unread messages after it. */
  lemma MarkReadKeepsInv(d: Desk, a: Actor, c: nat, message: Option<nat>, clock: int)
    requires Inv(d) && MarkRead(d, a, c, message, clock).Success?
    ensures var e := MarkRead(d, a, c, message, clock).value;
            && Inv(e) && Later(d, e) && e.messages == d.messages
            && (message.None? ==> e.conversations[c].positions[a] == d.conversations[c].lastMessageAt && Unread(e, a, c) == 0)
            && (message.Some? ==> forall m <- d.messages ::
                  IsUnread(m, e.conversations[c], a, c) <==>
                    IsUnread(m, d.conversations[c], a, c) && m.createdAt > d.messages[message.value].createdAt)
  {
    var e := MarkRead(d, a, c, message, clock).value;
    assert ConversationOk(d, c);
    LatestIs(d.messages, c, d.conversations[c].lastMessageAt);
    if message.Some? { assert d.messages[message.value] in d.messages; }
    assert e.messages[|d.messages|..] == [];
    forall k | 0 <= k < |e.conversations| ensures ConversationOk(e, k) {
      if k != c { OthersOk(d, e, c, k); }
    }
    if message.None? { UpToDate(e, a, c); }
  }

  lemma ChangeStatusKeepsInv(d: Desk, a: Actor, c: nat, status: Status)
    requires Inv(d) && ChangeStatus(d, a, c, status).Success?
    ensures Inv(ChangeStatus(d, a, c, status).value) && Later(d, ChangeStatus(d, a, c, status).value)
  {
    var e := ChangeStatus(d, a, c, status).value;
    assert ConversationOk(d, c);
    assert e.messages[|d.messages|..] == [];
    forall k | 0 <= k < |e.conversations| ensures ConversationOk(e, k) {
      if k != c { OthersOk(d, e, c, k); }
    }
  }

  // ---------- Retries ----------

  lemma {:induction false} FoundByClientId(messages: seq<Message>, k: nat, id: string)
    requires ClientIdsUnique(messages) && k < |messages| && messages[k].clientId == Some(id)
    ensures ByClientId(messages, id) == Some(k)
  {
  }

  /** Repeating a start with the same client identifier, however late and even for a user since deactivated, opens nothing. */
  lemma CreateRetryAddsNothing(d: Desk, a: Actor, user: nat, active: bool, subject: string, content: string, id: string, clock: int,
                               later: Desk, active': bool, clock': int)
    requires Inv(d) && Create(d, a, user, active, subject, content, Some(id), clock).Success? && Inv(later)
    requires Later(Create(d, a, user, active, subject, content, Some(id), clock).value.desk, later)
    ensures Create(later, a, user, active', subject, content, Some(id), clock')
              == Success(Reply(later, Create(d, a, user, active, subject, content, Some(id), clock).value.message, false))
  {
    CreateKeepsInv(d, a, user, active, subject, content, Some(id), clock);
    var r := Create(d, a, user, active, subject, content, Some(id), clock).value;
    assert later.messages[..|r.desk.messages|][r.message] == r.desk.messages[r.message];
    FoundByClientId(later.messages, r.message, id);
  }

  /** Repeating a send with the same client identifier, however late, answers with the first message and adds nothing. */
  lemma SendRetryAddsNothing(d: Desk, a: Actor, c: nat, content: string, id: string, clock: int, later: Desk, clock': int)
    requires Inv(d) && Send(d, a, c, content, Some(id), clock).Success? && Inv(later)
    requires Later(Send(d, a, c, content, Some(id), clock).value.desk, later)
    ensures Send(later, a, c, content, Some(id), clock') == Success(Reply(later, Send(d, a, c, content, Some(id), clock).value.message, false))
  {
    SendKeepsInv(d, a, c, content, Some(id), clock);
    var r := Send(d, a, c, content, Some(id), clock).value;
    assert later.messages[..|r.desk.messages|][r.message] == r.desk.messages[r.message];
    FoundByClientId(later.messages, r.message, id);
  }

  // ---------- Who may do what, and what it comes to ----------

  /** Users see their own conversations, administrators all of them. */
  predicate Sees(d: Desk, a: Actor, c: nat) {
    c < |d.conversations| && (a.side == Admin || d.conversations[c].user == a.id)
  }

  /** An earlier message with the client's identifier, if there is one. */
  ghost predicate SentBefore(d: Desk, clientId: Option<string>, k: nat) {
    clientId.Some? && k < |d.messages| && d.messages[k].clientId == clientId
  }

  lemma NotSentBefore(d: Desk, clientId: Option<string>)
    requires Inv(d)
    ensures Duplicate(d, clientId).None? <==> forall k | 0 <= k < |d.messages| :: !SentBefore(d, clientId, k)
    ensures Duplicate(d, clientId).Some? ==> SentBefore(d, clientId, Duplicate(d, clientId).value)
  {
    if Duplicate(d, clientId).Some? {
      assert SentBefore(d, clientId, Duplicate(d, clientId).value);
    } else {
      forall k | 0 <= k < |d.messages| ensures !SentBefore(d, clientId, k) { assert d.messages[k] in d.messages; }
    }
  }

  /** Where a message takes its conversation: an answer by the desk starts it, and any message reopens a resolved one. */
  function NextStatus(s: Status, side: Side): Status {
    match s
    case Open => if side == Admin then InProgress else Open
    case InProgress => InProgress
    case Resolved => if side == Admin then InProgress else Open
    case Closed => Closed
  }

  /**
   A new message is accepted in a conversation its sender sees and that is not closed; it comes after every
   other, moves the conversation along, and the sender has read up to it.
   */
  lemma NewMessageOutcome(d: Desk, a: Actor, c: nat, content: string, clientId: Option<string>, clock: int)
    requires Inv(d) && forall k | 0 <= k < |d.messages| :: !SentBefore(d, clientId, k)
    ensures Send(d, a, c, content, clientId, clock).Success? <==> Sees(d, a, c) && d.conversations[c].status != Closed
    ensures Send(d, a, c, content, clientId, clock).Success? ==>
              var r := Send(d, a, c, content, clientId, clock).value;
              var conv := d.conversations[c];
              var at := if clock > conv.lastMessageAt then clock else conv.lastMessageAt + 1;
              && r.created && r.message == |d.messages|
              && r.desk.messages == d.messages + [Message(c, a, content, clientId, false, at)]
              && r.desk.conversations == d.conversations[c := conv.(lastMessageAt := at, status := NextStatus(conv.status, a.side), positions := conv.positions[a := at])]
  {
    NotSentBefore(d, clientId);
  }

  /** A new conversation is accepted for an active user; it starts open, with its message read by its author. */
  lemma NewConversationOutcome(d: Desk, a: Actor, user: nat, active: bool, subject: string, content: string, clientId: Option<string>, clock: int)
    requires Inv(d) && forall k | 0 <= k < |d.messages| :: !SentBefore(d, clientId, k)
    ensures Create(d, a, user, active, subject, content, clientId, clock).Success? <==> active
    ensures active ==>
              var r := Create(d, a, user, active, subject, content, clientId, clock).value;
              && r.created && r.message == |d.messages|
              && r.desk.messages == d.messages + [Message(|d.conversations|, a, content, clientId, true, clock)]
              && r.desk.conversations == d.conversations + [Conversation(user, subject, a, Open, clock, map[a := clock])]
  {
    NotSentBefore(d, clientId);
  }

  /** An identifier used for something else is refused: only the same message of the same author is a retry. */
  lemma ReusedIdentifier(d: Desk, a: Actor, c: nat, content: string, clientId: Option<string>, clock: int, k: nat)
    requires Inv(d) && SentBefore(d, clientId, k) && Sees(d, a, c)
    ensures var m := d.messages[k];
            Send(d, a, c, content, clientId, clock) ==
              if !m.initial && m.conversation == c && m.sender == a && m.content == content then Success(Reply(d, k, false)) else Failure(IdReused)
  {
    FoundByClientId(d.messages, k, clientId.value);
  }

  /** The same for a conversation started twice: only the same start by the same author is a retry. */
  lemma ReusedStart(d: Desk, a: Actor, user: nat, active: bool, subject: string, content: string, clientId: Option<string>, clock: int, k: nat)
    requires Inv(d) && SentBefore(d, clientId, k)
    ensures var m := d.messages[k];
            && m.conversation < |d.conversations|
            && var c := d.conversations[m.conversation];
            Create(d, a, user, active, subject, content, clientId, clock) ==
              if m.initial && m.sender == c.createdBy == a && m.content == content && c.user == user && c.subject == subject
              then Success(Reply(d, k, false)) else Failure(IdReused)
  {
    FoundByClientId(d.messages, k, clientId.value);
    assert d.messages[k] in d.messages;
  }

  lemma {:induction false} SamePositionSameCount(messages: seq<Message>, conv: Conversation, next: Conversation, a: Actor, c: nat)
    requires a in conv.positions <==> a in next.positions
    requires a in conv.positions ==> conv.positions[a] == next.positions[a]
    ensures CountUnread(messages, conv, a, c) == CountUnread(messages, next, a, c)
  {
    if messages != [] { SamePositionSameCount(messages[..|messages| - 1], conv, next, a, c); }
  }

  /**
   A new message raises the unread count of every actor on the other side by one, leaves that of the sender's
   colleagues alone and clears the sender's own; other conversations are not affected.
   */
  lemma UnreadRises(d: Desk, a: Actor, c: nat, content: string, clientId: Option<string>, clock: int, reader: Actor, k: nat)
    requires Inv(d) && Send(d, a, c, content, clientId, clock).Success? && Send(d, a, c, content, clientId, clock).value.created
    requires k < |d.conversations|
    ensures var e := Send(d, a, c, content, clientId, clock).value.desk;
            k < |e.conversations| && Unread(e, reader, k) ==
              if k != c then Unread(d, reader, k)
              else if reader == a then 0
              else if reader.side != a.side then Unread(d, reader, k) + 1
              else Unread(d, reader, k)
  {
    var e := Send(d, a, c, content, clientId, clock).value.desk;
    if k == c && reader == a {
      SendKeepsInv(d, a, c, content, clientId, clock);
    } else {
      SamePositionSameCount(d.messages, d.conversations[k], e.conversations[k], reader, k);
      CountAppended(d.messages, e.messages[|d.messages|], e.conversations[k], reader, k);
      assert ConversationOk(d, c);
    }
  }

  lemma CountAppended(messages: seq<Message>, m: Message, conv: Conversation, a: Actor, c: nat)
    ensures CountUnread(messages + [m], conv, a, c) == CountUnread(messages, conv, a, c) + if IsUnread(m, conv, a, c) then 1 else 0
  {
    assert (messages + [m])[..|messages|] == messages;
  }

  /** Reading is accepted in a conversation the actor sees, up to one of its messages or to the last. */
  lemma ReadAcceptedIff(d: Desk, a: Actor, c: nat, message: Option<nat>, clock: int)
    ensures MarkRead(d, a, c, message, clock).Success? <==>
              Sees(d, a, c) && (message.Some? ==> message.value < |d.messages| && d.messages[message.value].conversation == c)
    ensures MarkRead(d, a, c, message, clock).Success? && message.Some? ==>
              var at := d.messages[message.value].createdAt;
              var positions := d.conversations[c].positions;
              MarkRead(d, a, c, message, clock).value.conversations[c].positions[a]
                == if a in positions && positions[a] > at then positions[a] else at
  {
  }

  /**
   A status is changed by anyone who sees the conversation; it decides whether messages are accepted from
   then on, and nobody's unread count moves.
   */
  lemma StatusOutcome(d: Desk, a: Actor, c: nat, status: Status, reader: Actor, k: nat)
    ensures ChangeStatus(d, a, c, status).Success? <==> Sees(d, a, c)
    ensures ChangeStatus(d, a, c, status).Success? ==>
              var e := ChangeStatus(d, a, c, status).value;
              && e.messages == d.messages && |e.conversations| == |d.conversations|
              && e.conversations[c] == d.conversations[c].(status := status)
              && (k < |d.conversations| ==> Unread(e, reader, k) == Unread(d, reader, k) && (k != c ==> e.conversations[k] == d.conversations[k]))
              && forall sender: Actor, content, clock | Sees(e, sender, c) ::
                   Send(e, sender, c, content, None, clock).Success? <==> status != Closed
  {
    if Sees(d, a, c) && k < |d.conversations| {
      SamePositionSameCount(d.messages, d.conversations[k], ChangeStatus(d, a, c, status).value.conversations[k], reader, k);
    }
  }

  // ---------- Runs ----------

  datatype Action =
    | ACreate(actor: Actor, user: nat, active: bool, subject: string, content: string, clientId: Option<string>, clock: int)
    | ASend(actor: Actor, conversation: nat, content: string, clientId: Option<string>, clock: int)
    | AMarkRead(actor: Actor, conversation: nat, message: Option<nat>, clock: int)
    | AChangeStatus(actor: Actor, conversation: nat, status: Status)

  function Step(d: Desk, x: Action): Desk {
    match x
    case ACreate(a, user, active, subject, content, id, clock) =>
      (match Create(d, a, user, active, subject, content, id, clock) case Success(r) => r.desk case Failure(_) => d)
    case ASend(a, c, content, id, clock) => (match Send(d, a, c, content, id, clock) case Success(r) => r.desk case Failure(_) => d)
    case AMarkRead(a, c, message, clock) => (match MarkRead(d, a, c, message, clock) case Success(e) => e case Failure(_) => d)
    case AChangeStatus(a, c, status) => (match ChangeStatus(d, a, c, status) case Success(e) => e case Failure(_) => d)
  }

  function Run(d: Desk, xs: seq<Action>): Desk {
    if xs == [] then d else Step(Run(d, xs[..|xs| - 1]), xs[|xs| - 1])
  }

  lemma StepKeepsInv(d: Desk, x: Action)
    requires Inv(d)
    ensures Inv(Step(d, x)) && Later(d, Step(d, x))
  {
    match x
    case ACreate(a, user, active, subject, content, id, clock) =>
      if Create(d, a, user, active, subject, content, id, clock).Success? { CreateKeepsInv(d, a, user, active, subject, content, id, clock); }
    case ASend(a, c, content, id, clock) => if Send(d, a, c, content, id, clock).Success? { SendKeepsInv(d, a, c, content, id, clock); }
    case AMarkRead(a, c, message, clock) => if MarkRead(d, a, c, message, clock).Success? { MarkReadKeepsInv(d, a, c, message, clock); }
    case AChangeStatus(a, c, status) => if ChangeStatus(d, a, c, status).Success? { ChangeStatusKeepsInv(d, a, c, status); }
  }

  lemma LaterTrans(d: Desk, e: Desk, f: Desk)
    requires Later(d, e) && Later(e, f)
    ensures Later(d, f)
  {
  }

  /** Whatever the clock does, in every run message times strictly increase and read positions never go back or ahead. */
  lemma {:induction false} RunKeepsInv(d: Desk, xs: seq<Action>)
    requires Inv(d)
    ensures Inv(Run(d, xs)) && Later(d, Run(d, xs))
  {
    if xs != [] {
      var front := xs[..|xs| - 1];
      RunKeepsInv(d, front);
      StepKeepsInv(Run(d, front), xs[|xs| - 1]);
      LaterTrans(d, Run(d, front), Run(d, xs));
    }
  }

  // ---------- The tables ----------

  class SupportDesk {
    var conversations: seq<Conversation>
    var messages: seq<Message>

    constructor ()
      ensures Snapshot() == Desk([], []) && Inv(Snapshot())
    {
      conversations, messages := [], [];
    }

    function Snapshot(): Desk
      reads this
    {
      Desk(conversations, messages)
    }

    method StoreConversation(a: Actor, user: nat, active: bool, subject: string, content: string, clientId: Option<string>, clock: int)
      returns (r: Result<(nat, bool), Error>)
      modifies this
      ensures match Create(old(Snapshot()), a, user, active, subject, content, clientId, clock)
              case Success(reply) => r == Success((reply.message, reply.created)) && Snapshot() == reply.desk
              case Failure(e) => r == Failure(e) && Snapshot() == old(Snapshot())
    {
      var duplicate := Duplicate(Snapshot(), clientId);
      if duplicate.Some? {
        if !IsExactStart(Snapshot(), messages[duplicate.value], a, user, subject, content) {
          return Failure(IdReused);
        }
        return Success((duplicate.value, false));
      }
      if !active {
        return Failure(NotFound);
      }
      messages := messages + [Message(|conversations|, a, content, clientId, true, clock)];
      conversations := conversations + [Conversation(user, subject, a, Open, clock, map[a := clock])];
      r := Success((|messages| - 1, true));
    }

    /** Opens a conversation with its first message, or finds the one an earlier attempt opened. */
    method CreateConversation(a: Actor, user: nat, active: bool, subject: string, content: string, clientId: Option<string>, clock: int)
      returns (r: Result<(nat, bool), Error>)
      requires Inv(Snapshot())
      modifies this
      ensures Inv(Snapshot()) && Later(old(Snapshot()), Snapshot())
      ensures r.Success? ==> r.value.0 < |messages| && messages[r.value.0].sender == a && messages[r.value.0].content == content
      ensures r.Success? && r.value.1 ==> |conversations| == |old(conversations)| + 1 && Unread(Snapshot(), a, |old(conversations)|) == 0
      ensures !(r.Success? && r.value.1) ==> Snapshot() == old(Snapshot())
    {
      ghost var before := Snapshot();
      StepKeepsInv(before, ACreate(a, user, active, subject, content, clientId, clock));
      r := StoreConversation(a, user, active, subject, content, clientId, clock);
      if r.Success? { CreateKeepsInv(before, a, user, active, subject, content, clientId, clock); }
    }

    method StoreMessage(a: Actor, c: nat, content: string, clientId: Option<string>, clock: int) returns (r: Result<(nat, bool), Error>)
      modifies this
      ensures match Send(old(Snapshot()), a, c, content, clientId, clock)
              case Success(reply) => r == Success((reply.message, reply.created)) && Snapshot() == reply.desk
              case Failure(e) => r == Failure(e) && Snapshot() == old(Snapshot())
    {
      if c >= |conversations| || !MaySee(conversations[c], a) {
        return Failure(NotFound);
      }
      var duplicate := Duplicate(Snapshot(), clientId);
      if duplicate.Some? {
        if !IsExactSend(messages[duplicate.value], a, c, content) {
          return Failure(IdReused);
        }
        return Success((duplicate.value, false));
      }
      var conversation := conversations[c];
      if conversation.status == Closed {
        return Failure(ConversationClosed);
      }
      var now := if clock > conversation.lastMessageAt + 1 then clock else conversation.lastMessageAt + 1;
      messages := messages + [Message(c, a, content, clientId, false, now)];
      conversation := conversation.(lastMessageAt := now, status := StatusAfter(conversation.status, a.side));
      conversations := conversations[c := conversation.(positions := conversation.positions[a := now])];
      r := Success((|messages| - 1, true));
    }

    /** Adds a message after all others of its conversation, or finds the one an earlier attempt added. */
    method SendMessage(a: Actor, c: nat, content: string, clientId: Option<string>, clock: int) returns (r: Result<(nat, bool), Error>)
      requires Inv(Snapshot())
      modifies this
      ensures Inv(Snapshot()) && Later(old(Snapshot()), Snapshot())
      ensures r.Success? ==>
                && c < |old(conversations)| == |conversations| && r.value.0 < |messages|
                && messages[r.value.0].sender == a && messages[r.value.0].content == content
      ensures r.Success? && r.value.1 ==> messages[r.value.0].createdAt > old(conversations)[c].lastMessageAt && Unread(Snapshot(), a, c) == 0
      ensures !(r.Success? && r.value.1) ==> Snapshot() == old(Snapshot())
    {
      ghost var before := Snapshot();
      StepKeepsInv(before, ASend(a, c, content, clientId, clock));
      r := StoreMessage(a, c, content, clientId, clock);
      if r.Success? { SendKeepsInv(before, a, c, content, clientId, clock); }
    }

    method StoreReadPosition(a: Actor, c: nat, message: Option<nat>, clock: int) returns (r: Result<int, Error>)
      modifies this`conversations
      ensures match MarkRead(old(Snapshot()), a, c, message, clock)
              case Success(e) => r.Success? && Snapshot() == e && r.value == e.conversations[c].positions[a]
              case Failure(e) => r == Failure(e) && Snapshot() == old(Snapshot())
    {
      if c >= |conversations| || !MaySee(conversations[c], a) {
        return Failure(NotFound);
      }
      var target := clock;
      if message.Some? {
        if message.value >= |messages| || messages[message.value].conversation != c {
          return Failure(NotFound);
        }
        target := messages[message.value].createdAt;
      } else {
        var latest := Latest(messages, c);
        if latest.Some? { target := latest.value; }
      }
      var positions := conversations[c].positions;
      var readAt := if a in positions && positions[a] > target then positions[a] else target;
      conversations := conversations[c := conversations[c].(positions := positions[a := readAt])];
      r := Success(readAt);
    }

    /** Moves the actor's read position, never back and never past the last message. */
    method MarkConversationRead(a: Actor, c: nat, message: Option<nat>, clock: int) returns (r: Result<int, Error>)
      requires Inv(Snapshot())
      modifies this`conversations
      ensures Inv(Snapshot()) && Later(old(Snapshot()), Snapshot())
      ensures r.Success? ==> c < |conversations| && r.value <= conversations[c].lastMessageAt && (message.None? ==> Unread(Snapshot(), a, c) == 0)
      ensures r.Failure? ==> Snapshot() == old(Snapshot())
    {
      ghost var before := Snapshot();
      StepKeepsInv(before, AMarkRead(a, c, message, clock));
      r := StoreReadPosition(a, c, message, clock);
      if r.Success? {
        MarkReadKeepsInv(before, a, c, message, clock);
        assert ConversationOk(Snapshot(), c);
      }
    }

    method UnreadCount(a: Actor, c: nat) returns (n: nat)
      requires c < |conversations|
      ensures n == Unread(Snapshot(), a, c)
    {
      n := 0;
      for k := 0 to |messages|
        invariant n == CountUnread(messages[..k], conversations[c], a, c)
      {
        assert messages[..k + 1][..k] == messages[..k];
        if IsUnread(messages[k], conversations[c], a, c) { n := n + 1; }
      }
      assert messages[..|messages|] == messages;
    }
  }
}
