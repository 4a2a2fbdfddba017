/** Chat timestamps and cursor reads (src/chat.ts): strictly increasing timestamps under any
    clock, and what a client that follows them with a cursor receives. */
module Chat {
  import opened Sorting
  import opened Text
  import opened Wrappers

  /** Ids of posted messages hold their timestamp; other ids come from an earlier import. */
  datatype MessageId = Posted(ts: int, random: string) | Imported(name: string)

  datatype Message = Message(id: MessageId, ts: int, from: string, to: Option<string>, channel: string,
                             content: string, reactions: map<string, seq<string>>, edits: nat)

  /** What a caller passes to `sendMessage`. */
  datatype Draft = Draft(from: string, to: Option<string>, channel: string, content: string)

  /** The filters of `getMessages`; empty strings and zeros are no filters. */
  datatype Query = Query(from: Option<string>, excludeFrom: Option<string>, to: Option<string>, channel: Option<string>,
                         since: int, before: int, after: int, limit: int, oldestFirst: bool)

  predicate Given(s: Option<string>) {
    s.Some? && s.value != ""
  }

  /** The filters other than time: they look at fields that never change. */
  predicate Addressed(m: Message, q: Query) {
    && (Given(q.from) ==> m.from == q.from.value)
    && (Given(q.excludeFrom) ==> m.from != q.excludeFrom.value)
    && (Given(q.to) ==> m.to == q.to)
    && (Given(q.channel) ==> m.channel == q.channel.value)
  }

  predicate Satisfies(m: Message, q: Query) {
    && Addressed(m, q)
    && (q.since != 0 ==> m.ts >= q.since)
    && (q.before != 0 ==> m.ts < q.before)
    && (q.after != 0 ==> m.ts > q.after)
  }

  function Where(table: seq<Message>, q: Query): seq<Message> {
    if table == [] then []
    else (if Satisfies(table[0], q) then [table[0]] else []) + Where(table[1..], q)
  }

  function Ts(m: Message): int { m.ts }

  function NegTs(m: Message): int { -m.ts }

  function Limited(rows: seq<Message>, limit: int): seq<Message> {
    if 0 < limit < |rows| then rows[..limit] else rows
  }

  /** The oldest rows, or the newest in ascending order; a limit of 0 or less is none. */
  function Selected(table: seq<Message>, q: Query): seq<Message> {
    if q.oldestFirst || q.limit <= 0 then Limited(SortBy(Where(table, q), Ts), q.limit)
    else SortBy(Limited(SortBy(Where(table, q), NegTs), q.limit), Ts)
  }

  /** How many rows a query answers with. */
  function AnswerSize(matching: nat, limit: int): nat {
    if 0 < limit < matching then limit else matching
  }

  /** No row that was left out belongs before one that is listed, when the newest or the oldest are wanted. */
  ghost predicate NoneOvertaken(rows: seq<Message>, table: seq<Message>, q: Query) {
    forall m, k | Satisfies(m, q) && multiset(rows)[m] < multiset(table)[m] && k in rows ::
      if q.oldestFirst then k.ts <= m.ts else k.ts >= m.ts
  }

  /** What `getMessages` promises: matching rows of the table in ascending order, each no more often than in the
      table, as many as the limit allows, and the right ones: the oldest, or by default the newest. */
  ghost predicate Answers(rows: seq<Message>, table: seq<Message>, q: Query) {
    && Sorted(rows, Ts)
    && (forall m :: multiset(rows)[m] <= if Satisfies(m, q) then multiset(table)[m] else 0)
    && |rows| == AnswerSize(|Where(table, q)|, q.limit)
    && NoneOvertaken(rows, table, q)
  }

  function Without(table: seq<Message>, id: MessageId): seq<Message> {
    if table == [] then []
    else (if table[0].id == id then [] else [table[0]]) + Without(table[1..], id)
  }

  /** `INSERT OR REPLACE`: the row moves to the end of the table. */
  function Upsert(table: seq<Message>, m: Message): seq<Message> {
    Without(table, m.id) + [m]
  }

  function Lookup(table: seq<Message>, id: MessageId): Option<Message> {
    if table == [] then None else if table[0].id == id then Some(table[0]) else Lookup(table[1..], id)
  }

  function Remove(names: seq<string>, name: string): seq<string> {
    if names == [] then [] else if names[0] == name then names[1..] else [names[0]] + Remove(names[1..], name)
  }

  /** A reaction is toggled; an emoji without agents disappears. */
  function Toggled(reactions: map<string, seq<string>>, emoji: string, agent: string): map<string, seq<string>> {
    var agents := if emoji in reactions then reactions[emoji] else [];
    if agent !in agents then reactions[emoji := agents + [agent]]
    else if Remove(agents, agent) == [] then reactions - {emoji}
    else reactions[emoji := Remove(agents, agent)]
  }

  // ---------- the chat as a state machine ----------

  datatype State = State(table: seq<Message>, last: int)

  datatype Step =
    | Send(now: int, random: string, draft: Draft)
    | Edit(id: MessageId, editor: string, content: string)
    | React(id: MessageId, emoji: string, agent: string)
    | Delete(id: MessageId, actor: string)

  function NextTimestamp(now: int, last: int): int {
    if now <= last then last + 1 else now
  }

  function Sent(now: int, last: int, random: string, d: Draft): Message {
    var ts := NextTimestamp(now, last);
    Message(Posted(ts, random), ts, d.from, d.to, d.channel, d.content, map[], 0)
  }

  function Apply(s: State, step: Step): State {
    match step
    case Send(now, random, draft) =>
      var m := Sent(now, s.last, random, draft);
      State(Upsert(s.table, m), m.ts)
    case Edit(id, editor, content) =>
      var m := Lookup(s.table, id);
      if Trim(content) == "" || m == None || m.value.from != editor then s
      else s.(table := Upsert(s.table, m.value.(content := Trim(content), edits := m.value.edits + 1)))
    case React(id, emoji, agent) =>
      var m := Lookup(s.table, id);
      if m == None then s
      else s.(table := Upsert(s.table, m.value.(reactions := Toggled(m.value.reactions, emoji, agent))))
    case Delete(id, actor) =>
      var m := Lookup(s.table, id);
      if m == None || m.value.from != actor then s else s.(table := Without(s.table, id))
  }

  datatype Status = Done | NotFound | Forbidden | InvalidContent

  /** Only its author may edit or delete a message. */
  function Permission(table: seq<Message>, id: MessageId, actor: string): Status {
    var m := Lookup(table, id);
    if m == None then NotFound else if m.value.from != actor then Forbidden else Done
  }

  class ChatManager {
    var table: seq<Message>
    var lastTimestamp: int

    function View(): State
      reads this
    {
      State(table, lastTimestamp)
    }

    /** Initialisation from the rows of an earlier run: `MAX(timestamp)`, or 0. */
    constructor (rows: seq<Message>)
      ensures table == rows
      ensures rows == [] ==> lastTimestamp == 0
      ensures rows != [] ==> (exists i :: 0 <= i < |rows| && rows[i].ts == lastTimestamp)
      ensures forall i | 0 <= i < |rows| :: rows[i].ts <= lastTimestamp
    {
      table := rows;
      var max := if rows == [] then 0 else rows[0].ts;
      for i := 0 to |rows|
        invariant rows == [] ==> max == 0
        invariant rows != [] ==> (exists j :: 0 <= j < |rows| && rows[j].ts == max)
        invariant forall j | 0 <= j < i :: rows[j].ts <= max
      {
        if rows[i].ts > max {
          max := rows[i].ts;
        }
      }
      lastTimestamp := max;
    }

    /** The part of `sendMessage` after duplicate suppression has let the message pass. */
    method SendMessage(now: int, random: string, draft: Draft) returns (m: Message)
      modifies this
      ensures View() == Apply(old(View()), Send(now, random, draft))
      ensures m == Sent(now, old(lastTimestamp), random, draft) && m.ts > old(lastTimestamp) && m.ts >= now
    {
      var ts := now;
      if ts <= lastTimestamp {
        ts := lastTimestamp + 1;
      }
      lastTimestamp := ts;
      m := Message(Posted(ts, random), ts, draft.from, draft.to, draft.channel, draft.content, map[], 0);
      WriteMessage(m);
    }

    method WriteMessage(m: Message)
      modifies this`table
      ensures table == Upsert(old(table), m)
    {
      table := Upsert(table, m);
    }

    method EditMessage(id: MessageId, editor: string, content: string) returns (status: Status)
      modifies this
      ensures View() == Apply(old(View()), Edit(id, editor, content))
      ensures status == if Trim(content) == "" then InvalidContent else Permission(old(table), id, editor)
      ensures status == InvalidContent <==> Blank(content)
      ensures status == NotFound <==> !Blank(content) && forall m | m in old(table) :: m.id != id
      ensures status == Done ==> exists m :: m in old(table) && m.id == id && m.from == editor
    {
      TrimCuts(content);
      LookupId(table, id);
      var trimmed := Trim(content);
      if trimmed == "" {
        return InvalidContent;
      }
      var row := Lookup(table, id);
      if row == None {
        return NotFound;
      }
      var message := row.value;
      if message.from != editor {
        return Forbidden;
      }
      WriteMessage(message.(content := trimmed, edits := message.edits + 1));
      return Done;
    }

    method AddReaction(id: MessageId, emoji: string, agent: string) returns (message: Option<Message>)
      modifies this
      ensures View() == Apply(old(View()), React(id, emoji, agent))
      ensures message.Some? <==> Lookup(old(table), id).Some?
      ensures message.Some? ==> Lookup(table, id) == message
    {
      message := Lookup(table, id);
      if message.Some? {
        message := Some(message.value.(reactions := Toggled(message.value.reactions, emoji, agent)));
        LookupId(table, id);
        LookupUpserted(table, message.value);
        WriteMessage(message.value);
      }
    }

    method DeleteMessage(id: MessageId, actor: string) returns (status: Status)
      modifies this
      ensures View() == Apply(old(View()), Delete(id, actor))
      ensures status == Permission(old(table), id, actor)
      ensures status == NotFound <==> forall m | m in old(table) :: m.id != id
      ensures status == Done ==> exists m :: m in old(table) && m.id == id && m.from == actor
      ensures status in {Done, NotFound, Forbidden}
    {
      LookupId(table, id);
      var row := Lookup(table, id);
      if row == None {
        return NotFound;
      }
      if row.value.from != actor {
        return Forbidden;
      }
      table := Without(table, id);
      return Done;
    }

    /** The filters, then the one of the three queries that the limit and the order ask for. */
    method GetMessages(q: Query) returns (rows: seq<Message>)
      ensures Answers(rows, table, q)
      ensures rows == Selected(table, q)
    {
      hide Satisfies, SortBy, Answers;
      var matching: seq<Message> := [];
      for i := 0 to |table|
        invariant matching + Where(table[i..], q) == Where(table, q)
      {
        assert table[i..][1..] == table[i + 1..];
        if Satisfies(table[i], q) {
          matching := matching + [table[i]];
        }
      }
      assert matching == Where(table, q);
      if q.limit > 0 {
        if q.oldestFirst {
          rows := SortBy(matching, Ts);
          if |rows| > q.limit {
            rows := rows[..q.limit];
          }
        } else {
          rows := SortBy(matching, NegTs);
          if |rows| > q.limit {
            rows := rows[..q.limit];
          }
          rows := SortBy(rows, Ts);
        }
      } else {
        rows := SortBy(matching, Ts);
      }
      SelectedAnswers(table, q);
    }
  }

  lemma {:induction false} LookupUpserted(table: seq<Message>, m: Message)
    ensures Lookup(Upsert(table, m), m.id) == Some(m)
  {
    if table == [] {
      assert Upsert(table, m) == [m];
    } else {
      LookupUpserted(table[1..], m);
      if table[0].id == m.id {
        assert Upsert(table, m) == Upsert(table[1..], m);
      } else {
        assert Upsert(table, m) == [table[0]] + Upsert(table[1..], m);
      }
    }
  }

  /** Taking the first of some sorted rows leaves out none that sorts before one taken. */
  lemma FirstOfSorted(rows: seq<Message>, n: nat, key: Message -> int, m: Message, k: Message)
    requires Sorted(rows, key) && n <= |rows| && multiset(rows[..n])[m] < multiset(rows)[m] && k in rows[..n]
    ensures key(k) <= key(m)
  {
    assert rows == rows[..n] + rows[n..];
    assert m in rows[n..];
    var i :| 0 <= i < |rows[n..]| && rows[n..][i] == m;
    var j :| 0 <= j < n && rows[..n][j] == k;
    assert key(rows[j]) <= key(rows[n + i]);
  }

  lemma PrefixCounts(rows: seq<Message>, n: nat, m: Message)
    requires n <= |rows|
    ensures multiset(rows[..n])[m] <= multiset(rows)[m]
  {
    assert rows == rows[..n] + rows[n..];
  }

  lemma PrefixSorted(rows: seq<Message>, n: nat, key: Message -> int)
    requires Sorted(rows, key) && n <= |rows|
    ensures Sorted(rows[..n], key)
  {
  }

  lemma OldestAnswer(table: seq<Message>, q: Query)
    requires q.oldestFirst || q.limit <= 0
    ensures Answers(Selected(table, q), table, q)
  {
    hide Satisfies, SortBy, Where, Sorted;
    var all, rows := SortBy(Where(table, q), Ts), Selected(table, q);
    SortBySorts(Where(table, q), Ts);
    PrefixSorted(all, |rows|, Ts);
    assert all[..|all|] == all;
    forall m
      ensures multiset(all)[m] == if Satisfies(m, q) then multiset(table)[m] else 0
      ensures multiset(rows)[m] <= multiset(all)[m]
    {
      WhereCount(table, q, m);
      PrefixCounts(all, |rows|, m);
    }
    forall m, k | Satisfies(m, q) && multiset(rows)[m] < multiset(table)[m] && k in rows
      ensures q.oldestFirst && k.ts <= m.ts
    {
      assert multiset(all)[m] == multiset(table)[m];
      FirstOfSorted(all, |rows|, Ts, m, k);
    }
  }

  lemma NewestAnswer(table: seq<Message>, q: Query)
    requires !q.oldestFirst && q.limit > 0
    ensures Answers(Selected(table, q), table, q)
  {
    hide Satisfies, SortBy, Where, Sorted;
    var all := SortBy(Where(table, q), NegTs);
    var newest, rows := Limited(all, q.limit), Selected(table, q);
    SortBySorts(Where(table, q), NegTs);
    SortBySorts(newest, Ts);
    assert all[..|all|] == all;
    forall m
      ensures multiset(all)[m] == if Satisfies(m, q) then multiset(table)[m] else 0
      ensures multiset(rows)[m] == multiset(newest)[m] <= multiset(all)[m]
    {
      WhereCount(table, q, m);
      PrefixCounts(all, |newest|, m);
    }
    forall m, k | Satisfies(m, q) && multiset(rows)[m] < multiset(table)[m] && k in rows
      ensures k.ts >= m.ts
    {
      assert multiset(all)[m] == multiset(table)[m];
      assert k in multiset(rows);
      assert multiset(newest)[k] > 0;
      FirstOfSorted(all, |newest|, NegTs, m, k);
    }
  }

  /** The rows that `GetMessages` returns are an answer to the query. */
  lemma SelectedAnswers(table: seq<Message>, q: Query)
    ensures Answers(Selected(table, q), table, q)
  {
    hide Answers, Selected;
    if q.oldestFirst || q.limit <= 0 {
      OldestAnswer(table, q);
    } else {
      NewestAnswer(table, q);
    }
  }

  lemma {:induction false} LookupId(table: seq<Message>, id: MessageId)
    ensures Lookup(table, id).Some? ==> Lookup(table, id).value.id == id && Lookup(table, id).value in table
    ensures Lookup(table, id) == None ==> forall i | 0 <= i < |table| :: table[i].id != id
  {
    if table != [] && table[0].id != id {
      LookupId(table[1..], id);
    }
  }

  // ---------- what every step keeps ----------

  /** No row twice, and no two rows with one id. */
  ghost predicate UniqueRows(table: seq<Message>) {
    && (forall m :: multiset(table)[m] <= 1)
    && (forall a, b | a in table && b in table && a.id == b.id :: a == b)
  }

  /** Timestamps lie between 1 and the last one, and are those in the ids of posted messages. */
  predicate GoodTimestamps(table: seq<Message>, last: int) {
    forall m | m in table :: 0 < m.ts <= last && (m.id.Posted? ==> m.id.ts == m.ts)
  }

  /** After the cursor `c0`, no two rows have the same timestamp. */
  predicate DistinctAfter(table: seq<Message>, c0: int) {
    forall a, b | a in table && b in table && a.ts == b.ts && a.ts > c0 :: a == b
  }

  ghost predicate Sound(s: State, c0: int) {
    UniqueRows(s.table) && GoodTimestamps(s.table, s.last) && DistinctAfter(s.table, c0) && 0 <= c0 <= s.last
  }

  lemma {:induction false} WithoutCount(table: seq<Message>, id: MessageId, m: Message)
    ensures multiset(Without(table, id))[m] == if m.id == id then 0 else multiset(table)[m]
  {
    if table != [] {
      assert table == [table[0]] + table[1..];
      WithoutCount(table[1..], id, m);
    }
  }

  lemma MemberByCount(rows: seq<Message>, m: Message)
    ensures m in rows <==> multiset(rows)[m] > 0
  {
    assert m in rows <==> m in multiset(rows);
  }

  lemma WithoutMember(table: seq<Message>, id: MessageId, m: Message)
    ensures m in Without(table, id) <==> m in table && m.id != id
  {
    WithoutCount(table, id, m);
    MemberByCount(table, m);
    MemberByCount(Without(table, id), m);
  }

  lemma WithoutSound(s: State, id: MessageId, c0: int)
    requires Sound(s, c0)
    ensures Sound(s.(table := Without(s.table, id)), c0)
  {
    forall m
      ensures multiset(Without(s.table, id))[m] <= 1
      ensures m in Without(s.table, id) <==> m in s.table && m.id != id
    {
      WithoutCount(s.table, id, m);
      WithoutMember(s.table, id, m);
      assert multiset(s.table)[m] <= 1;
    }
  }

  /** Writing a row keeps the table sound if the row does not clash with the others. */
  lemma UpsertSound(s: State, m: Message, last: int, c0: int)
    requires Sound(s, c0) && s.last <= last && 0 < m.ts <= last && (m.id.Posted? ==> m.id.ts == m.ts)
    requires forall x | x in s.table && x.id != m.id && x.ts == m.ts :: x.ts <= c0
    ensures Sound(State(Upsert(s.table, m), last), c0)
    ensures forall x :: x in Upsert(s.table, m) <==> x == m || (x in s.table && x.id != m.id)
  {
    hide Without;
    WithoutSound(s, m.id, c0);
    var rest := Without(s.table, m.id);
    forall x
      ensures multiset(rest + [m])[x] <= 1
      ensures x in rest <==> x in s.table && x.id != m.id
    {
      WithoutCount(s.table, m.id, x);
      WithoutMember(s.table, m.id, x);
      assert multiset(rest)[x] <= 1;
    }
  }

  /** The rewrite of a row: content, reactions and edit count only. */
  predicate Rewrites(m: Message, old_: Message) {
    m.id == old_.id && m.ts == old_.ts && m.from == old_.from && m.to == old_.to && m.channel == old_.channel
  }

  /** What one step does to the table: rows disappear, are rewritten, or one is added whose
      timestamp is later than all before. */
  lemma StepKeeps(s: State, step: Step, c0: int)
    requires Sound(s, c0)
    ensures Sound(Apply(s, step), c0) && s.last <= Apply(s, step).last
    ensures forall x | x in Apply(s, step).table ::
              (exists y :: y in s.table && Rewrites(x, y))
              || (step.Send? && x.ts > s.last && x.id == Posted(x.ts, step.random))
  {
    hide Sound, Without, Upsert, Lookup, Toggled;
    SoundFacts(s, c0);
    match step
    case Send(now, random, draft) =>
      var m := Sent(now, s.last, random, draft);
      UpsertSound(s, m, m.ts, c0);
      assert forall x | x in s.table :: Rewrites(x, x);
    case Edit(id, editor, content) =>
      LookupId(s.table, id);
      RewriteKeeps(s, id, c0);
      assert forall x | x in s.table :: Rewrites(x, x);
    case React(id, emoji, agent) =>
      LookupId(s.table, id);
      RewriteKeeps(s, id, c0);
      assert forall x | x in s.table :: Rewrites(x, x);
    case Delete(id, actor) =>
      WithoutSound(s, id, c0);
      forall x
        ensures x in Without(s.table, id) ==> x in s.table && Rewrites(x, x)
      {
        WithoutMember(s.table, id, x);
      }
  }

  lemma SoundFacts(s: State, c0: int)
    requires Sound(s, c0)
    ensures 0 <= c0 <= s.last && forall x | x in s.table :: 0 < x.ts <= s.last && (x.id.Posted? ==> x.id.ts == x.ts)
  {
  }

  lemma RewriteKeeps(s: State, id: MessageId, c0: int)
    requires Sound(s, c0)
    ensures forall m | Lookup(s.table, id).Some? && Rewrites(m, Lookup(s.table, id).value) ::
              Sound(s.(table := Upsert(s.table, m)), c0)
              && forall x | x in Upsert(s.table, m) :: x == m || x in s.table
  {
    hide Without, Upsert, Lookup;
    LookupId(s.table, id);
    forall m | Lookup(s.table, id).Some? && Rewrites(m, Lookup(s.table, id).value)
      ensures Sound(s.(table := Upsert(s.table, m)), c0)
      ensures forall x | x in Upsert(s.table, m) :: x == m || x in s.table
    {
      UpsertSound(s, m, s.last, c0);
    }
  }

  // ---------- the syncing client ----------

  /** A client that remembers the timestamp of the last message it has received. */
  datatype Client = Client(cursor: int, received: seq<Message>)

  datatype Event = Server(step: Step) | Fetch(limit: int)

  function SyncQuery(q: Query, cursor: int, limit: int): Query {
    q.(since := 0, before := 0, after := cursor, limit := limit, oldestFirst := true)
  }

  /** `getMessages({after: lastSeen, oldestFirst: true, limit})`. */
  function Fetched(s: State, c: Client, q: Query, limit: int): Client {
    var batch := Selected(s.table, SyncQuery(q, c.cursor, limit));
    Client(if batch == [] then c.cursor else batch[|batch| - 1].ts, c.received + batch)
  }

  function Run(s: State, c: Client, q: Query, events: seq<Event>): (State, Client) {
    if events == [] then (s, c)
    else
      var (t, d) := Run(s, c, q, events[..|events| - 1]);
      match events[|events| - 1]
      case Server(step) => (Apply(t, step), d)
      case Fetch(limit) => (t, Fetched(t, d, q, limit))
  }

  predicate Got(received: seq<Message>, m: Message) {
    exists i :: 0 <= i < |received| && received[i].id == m.id && received[i].ts == m.ts
  }

  predicate IncreasingTs(rows: seq<Message>) {
    forall i, j | 0 <= i < j < |rows| :: rows[i].ts < rows[j].ts
  }

  /** In order, between the start and the cursor, posted messages with the timestamp of their id. */
  predicate Orderly(received: seq<Message>, c0: int, cursor: int) {
    && c0 <= cursor && IncreasingTs(received)
    && (forall i | 0 <= i < |received| :: c0 < received[i].ts <= cursor)
    && (forall i | 0 <= i < |received| && received[i].id.Posted? :: received[i].id.ts == received[i].ts)
  }

  /** The timestamp of an id is the same in the table and among the received messages. */
  predicate Agrees(table: seq<Message>, received: seq<Message>) {
    forall i, m | 0 <= i < |received| && m in table && m.id == received[i].id :: m.ts == received[i].ts
  }

  predicate DistinctIds(received: seq<Message>) {
    forall i, j | 0 <= i < j < |received| :: received[i].id != received[j].id
  }

  /** The received messages lie between the start and the cursor, in order, and the timestamp
      of an id is the same wherever the id occurs. */
  predicate ClientSound(s: State, c: Client, c0: int) {
    c.cursor <= s.last && Orderly(c.received, c0, c.cursor) && Agrees(s.table, c.received) && DistinctIds(c.received)
  }

  /** Nothing up to the cursor has been missed. */
  predicate Complete(s: State, c: Client, q: Query, c0: int) {
    forall m | m in s.table && Addressed(m, q) && c0 < m.ts <= c.cursor :: Got(c.received, m)
  }

  lemma {:induction false} WhereCount(table: seq<Message>, q: Query, m: Message)
    ensures multiset(Where(table, q))[m] == if Satisfies(m, q) then multiset(table)[m] else 0
  {
    hide Satisfies;
    if table != [] {
      assert table == [table[0]] + table[1..];
      WhereCount(table[1..], q, m);
    }
  }

  /** A batch of a sync query: the first of the rows after the cursor, in order. */
  lemma BatchFacts(s: State, q: Query, cursor: int, limit: int, c0: int)
    requires Sound(s, c0) && c0 <= cursor && limit >= 1
    ensures var batch := Selected(s.table, SyncQuery(q, cursor, limit));
            IncreasingTs(batch)
            && (forall i | 0 <= i < |batch| :: batch[i] in s.table && Addressed(batch[i], q) && batch[i].ts > cursor)
            && (forall m | m in s.table && Addressed(m, q) && m.ts > cursor ::
                  batch != [] && (m in batch || m.ts > batch[|batch| - 1].ts))
  {
    hide Addressed, Where, SortBy;
    var sync := SyncQuery(q, cursor, limit);
    var rows := SortBy(Where(s.table, sync), Ts);
    var batch := Selected(s.table, sync);
    SortBySorts(Where(s.table, sync), Ts);
    assert forall m | m in s.table :: m.ts > 0;
    forall m
      ensures m in rows <==> m in s.table && Addressed(m, q) && m.ts > cursor
      ensures multiset(rows)[m] <= 1
    {
      WhereCount(s.table, sync, m);
      MemberByCount(rows, m);
      MemberByCount(s.table, m);
      assert multiset(s.table)[m] <= 1;
      if m.ts > 0 {
        AfterCursor(q, cursor, limit, m);
      }
    }
    RowsIncrease(s, rows, c0);
  }

  /** Timestamps are positive, so a cursor of 0, which is no filter, loses nothing. */
  lemma AfterCursor(q: Query, cursor: int, limit: int, m: Message)
    requires m.ts > 0 && cursor >= 0
    ensures Satisfies(m, SyncQuery(q, cursor, limit)) <==> Addressed(m, q) && m.ts > cursor
  {
  }

  lemma RowsIncrease(s: State, rows: seq<Message>, c0: int)
    requires DistinctAfter(s.table, c0) && Sorted(rows, Ts)
    requires forall m :: multiset(rows)[m] <= 1
    requires forall m | m in rows :: m in s.table && m.ts > c0
    ensures IncreasingTs(rows)
  {
    forall i, j | 0 <= i < j < |rows|
      ensures rows[i].ts < rows[j].ts
    {
      assert Ts(rows[i]) <= Ts(rows[j]);
      if rows[i] == rows[j] {
        TwoPlaces(rows, i, j);
      }
    }
  }

  lemma TwoPlaces(rows: seq<Message>, i: nat, j: nat)
    requires i < j < |rows| && rows[i] == rows[j]
    ensures multiset(rows)[rows[i]] >= 2
  {
    assert rows == rows[..i] + [rows[i]] + rows[i + 1..j] + [rows[j]] + rows[j + 1..];
  }

  lemma FetchSound(s: State, c: Client, q: Query, limit: int, c0: int)
    requires Sound(s, c0) && ClientSound(s, c, c0) && Complete(s, c, q, c0) && limit >= 1
    ensures ClientSound(s, Fetched(s, c, q, limit), c0) && Complete(s, Fetched(s, c, q, limit), q, c0)
  {
    hide Selected, Addressed, Sound, Agrees, DistinctIds, IncreasingTs, Complete;
    BatchFacts(s, q, c.cursor, limit, c0);
    var batch := Selected(s.table, SyncQuery(q, c.cursor, limit));
    BatchSound(s, c, batch, c0);
    CompleteAppend(s, c, q, batch, c0);
  }

  lemma CompleteAppend(s: State, c: Client, q: Query, batch: seq<Message>, c0: int)
    requires Complete(s, c, q, c0)
    requires forall m | m in s.table && Addressed(m, q) && m.ts > c.cursor ::
               batch != [] && (m in batch || m.ts > batch[|batch| - 1].ts)
    ensures Complete(s, Client(if batch == [] then c.cursor else batch[|batch| - 1].ts, c.received + batch), q, c0)
  {
    hide Addressed;
    var received := c.received + batch;
    forall m | m in s.table && Addressed(m, q) && c0 < m.ts && Got(c.received, m)
      ensures Got(received, m)
    {
      var i :| 0 <= i < |c.received| && c.received[i].id == m.id && c.received[i].ts == m.ts;
      assert received[i] == c.received[i];
    }
    forall m | m in batch
      ensures Got(received, m)
    {
      var i :| 0 <= i < |batch| && batch[i] == m;
      assert received[|c.received| + i] == m;
    }
  }

  lemma OrderlyAppend(a: seq<Message>, b: seq<Message>, c0: int, cursor: int, last: int)
    requires Orderly(a, c0, cursor) && Orderly(b, cursor, last)
    ensures Orderly(a + b, c0, last)
  {
  }

  lemma AgreesAppend(s: State, a: seq<Message>, batch: seq<Message>, c0: int)
    requires Sound(s, c0) && Agrees(s.table, a) && forall i | 0 <= i < |batch| :: batch[i] in s.table
    ensures Agrees(s.table, a + batch)
  {
    hide UniqueRows, DistinctAfter, GoodTimestamps;
    ByIdInTable(s, c0);
  }

  lemma BatchDistinct(table: seq<Message>, batch: seq<Message>)
    requires forall a, b | a in table && b in table && a.id == b.id :: a == b
    requires IncreasingTs(batch) && forall i | 0 <= i < |batch| :: batch[i] in table
    ensures DistinctIds(batch)
  {
  }

  lemma DistinctAppend(table: seq<Message>, a: seq<Message>, batch: seq<Message>, cursor: int)
    requires DistinctIds(a) && DistinctIds(batch) && Agrees(table, a)
    requires forall i | 0 <= i < |a| :: a[i].ts <= cursor
    requires forall i | 0 <= i < |batch| :: batch[i] in table && batch[i].ts > cursor
    ensures DistinctIds(a + batch)
  {
    forall i, j | 0 <= i < |a| && 0 <= j < |batch|
      ensures a[i].id != batch[j].id
    {
      assert batch[j] in table;
    }
  }

  lemma BatchSound(s: State, c: Client, batch: seq<Message>, c0: int)
    requires Sound(s, c0) && ClientSound(s, c, c0) && IncreasingTs(batch)
    requires forall i | 0 <= i < |batch| :: batch[i] in s.table && batch[i].ts > c.cursor
    ensures ClientSound(s, Client(if batch == [] then c.cursor else batch[|batch| - 1].ts, c.received + batch), c0)
  {
    hide UniqueRows, DistinctAfter, DistinctIds, Agrees, IncreasingTs, Orderly;
    var cursor := if batch == [] then c.cursor else batch[|batch| - 1].ts;
    BatchOrderly(s, batch, c.cursor, c0);
    OrderlyAppend(c.received, batch, c0, c.cursor, cursor);
    ByIdInTable(s, c0);
    AgreesAppend(s, c.received, batch, c0);
    BatchDistinct(s.table, batch);
    OrderlyParts(c.received, c0, c.cursor);
    DistinctAppend(s.table, c.received, batch, c.cursor);
    OrderlyParts(c.received + batch, c0, cursor);
  }

  lemma OrderlyParts(received: seq<Message>, c0: int, cursor: int)
    requires Orderly(received, c0, cursor)
    ensures IncreasingTs(received) && forall i | 0 <= i < |received| :: c0 < received[i].ts <= cursor
  {
  }

  lemma BatchOrderly(s: State, batch: seq<Message>, cursor: int, c0: int)
    requires Sound(s, c0) && IncreasingTs(batch) && cursor <= s.last
    requires forall i | 0 <= i < |batch| :: batch[i] in s.table && batch[i].ts > cursor
    ensures Orderly(batch, cursor, if batch == [] then cursor else batch[|batch| - 1].ts)
    ensures batch != [] ==> cursor <= batch[|batch| - 1].ts <= s.last
  {
    hide UniqueRows, DistinctAfter;
  }

  lemma ByIdInTable(s: State, c0: int)
    requires Sound(s, c0)
    ensures forall a, b | a in s.table && b in s.table && a.id == b.id :: a == b
  {
  }

  lemma ServerSound(s: State, c: Client, q: Query, step: Step, c0: int)
    requires Sound(s, c0) && ClientSound(s, c, c0) && Complete(s, c, q, c0)
    ensures Sound(Apply(s, step), c0) && ClientSound(Apply(s, step), c, c0) && Complete(Apply(s, step), c, q, c0)
  {
    hide Apply, Sound, Addressed, IncreasingTs, DistinctIds;
    StepKeeps(s, step, c0);
    var t := Apply(s, step);
    forall i, m | 0 <= i < |c.received| && m in t.table && m.id == c.received[i].id
      ensures m.ts == c.received[i].ts
    {
      if y :| y in s.table && Rewrites(m, y) {
        assert y.ts == c.received[i].ts;
      }
    }
    forall m | m in t.table && Addressed(m, q) && c0 < m.ts <= c.cursor
      ensures Got(c.received, m)
    {
      var y :| y in s.table && Rewrites(m, y);
      SameAddress(m, y, q);
      assert Got(c.received, y);
    }
  }

  lemma SameAddress(m: Message, y: Message, q: Query)
    requires Rewrites(m, y)
    ensures Addressed(m, q) <==> Addressed(y, q)
  {
  }

  predicate PositiveLimits(events: seq<Event>) {
    forall i | 0 <= i < |events| && events[i].Fetch? :: events[i].limit >= 1
  }

  lemma {:induction false} RunSound(s: State, q: Query, c0: int, events: seq<Event>)
    requires Sound(s, c0) && PositiveLimits(events)
    ensures var (t, c) := Run(s, Client(c0, []), q, events);
            Sound(t, c0) && ClientSound(t, c, c0) && Complete(t, c, q, c0)
  {
    hide Sound, ClientSound, Complete, Apply, Fetched;
    if events == [] {
      FreshClient(s, q, c0);
    } else {
      var front := events[..|events| - 1];
      RunSound(s, q, c0, front);
      var (t, c) := Run(s, Client(c0, []), q, front);
      match events[|events| - 1]
      case Server(step) => ServerSound(t, c, q, step, c0);
      case Fetch(limit) => FetchSound(t, c, q, limit, c0);
    }
  }

  lemma FreshClient(s: State, q: Query, c0: int)
    requires Sound(s, c0)
    ensures ClientSound(s, Client(c0, []), c0) && Complete(s, Client(c0, []), q, c0)
  {
  }

  // ---------- main results ----------

  /** Every accepted message has a later timestamp than all before, whatever the clock says. */
  lemma TimestampsIncrease(s: State, steps: seq<Step>, c0: int, i: nat, j: nat)
    requires Sound(s, c0) && i < j < |steps| && steps[i].Send? && steps[j].Send?
    ensures s.last < AfterSteps(s, steps[..i + 1]).last < AfterSteps(s, steps[..j + 1]).last
  {
    hide Sound, Apply;
    LastIncreases(s, steps[..i], steps[i], c0);
    assert steps[..i + 1][..i] == steps[..i];
    LaterLast(s, steps[..j], i + 1, c0);
    assert steps[..j][..i + 1] == steps[..i + 1];
    LastIncreases(s, steps[..j], steps[j], c0);
    assert steps[..j + 1][..j] == steps[..j];
  }

  function AfterSteps(s: State, steps: seq<Step>): State {
    if steps == [] then s else Apply(AfterSteps(s, steps[..|steps| - 1]), steps[|steps| - 1])
  }

  lemma {:induction false} LaterLast(s: State, steps: seq<Step>, i: nat, c0: int)
    requires Sound(s, c0) && i <= |steps|
    ensures Sound(AfterSteps(s, steps), c0)
    ensures s.last <= AfterSteps(s, steps[..i]).last <= AfterSteps(s, steps).last
  {
    hide Sound, Apply;
    if steps == [] {
      assert steps[..i] == [];
    } else {
      var front := steps[..|steps| - 1];
      if i == |steps| {
        assert steps[..i] == steps;
        LaterLast(s, front, 0, c0);
        assert front[..0] == [];
      } else {
        LaterLast(s, front, i, c0);
        assert front[..i] == steps[..i];
      }
      StepKeeps(AfterSteps(s, front), steps[|steps| - 1], c0);
    }
  }

  lemma LastIncreases(s: State, steps: seq<Step>, step: Step, c0: int)
    requires Sound(s, c0) && step.Send?
    ensures s.last <= AfterSteps(s, steps).last < Apply(AfterSteps(s, steps), step).last
  {
    hide Sound;
    LaterLast(s, steps, 0, c0);
    assert steps[..0] == [];
  }

  /** The number of times a message is among the received ones. */
  function TimesReceived(received: seq<Message>, id: MessageId): nat {
    if received == [] then 0
    else (if received[|received| - 1].id == id then 1 else 0) + TimesReceived(received[..|received| - 1], id)
  }

  lemma {:induction false} ReceivedOnce(received: seq<Message>, id: MessageId)
    requires forall i, j | 0 <= i < j < |received| :: received[i].id != received[j].id
    ensures TimesReceived(received, id) == if exists i :: 0 <= i < |received| && received[i].id == id then 1 else 0
  {
    if received != [] {
      ReceivedOnce(received[..|received| - 1], id);
    }
  }

  /** Under any clock and any interleaving of posts, edits, reactions and deletes, a client that
      follows its cursor receives messages in strictly increasing order, none of them twice, and
      each message of the table up to its cursor exactly once. */
  lemma SyncIsLossless(s: State, q: Query, c0: int, events: seq<Event>)
    requires Sound(s, c0) && PositiveLimits(events)
    ensures var (t, c) := Run(s, Client(c0, []), q, events);
            IncreasingTs(c.received)
            && (forall id :: TimesReceived(c.received, id) <= 1)
            && (forall m | m in t.table && Addressed(m, q) && c0 < m.ts <= c.cursor :: TimesReceived(c.received, m.id) == 1)
            && (forall m | m in t.table && m.ts > c.cursor :: TimesReceived(c.received, m.id) == 0)
  {
    hide Sound, Addressed, Run;
    RunSound(s, q, c0, events);
    var (t, c) := Run(s, Client(c0, []), q, events);
    forall id
      ensures TimesReceived(c.received, id) == if exists i ::
          0 <= i < |c.received| && c.received[i].id == id then 1 else 0
    {
      ReceivedOnce(c.received, id);
    }
    forall m | m in t.table && Addressed(m, q) && c0 < m.ts <= c.cursor
      ensures TimesReceived(c.received, m.id) == 1
    {
      assert Got(c.received, m);
    }
  }

  // ---------- rows that share a timestamp ----------

  /** The fetch does not give the row, but moves the cursor up to it or past it. */
  ghost predicate LeftBehind(s: State, c: Client, q: Query, limit: int, m: Message) {
    && multiset(Selected(s.table, SyncQuery(q, c.cursor, limit)))[m]
         < multiset(Where(s.table, SyncQuery(q, c.cursor, limit)))[m]
    && m.ts <= Fetched(s, c, q, limit).cursor
  }

  /** The limit falls between two rows with the same timestamp. */
  predicate TieAtLimit(s: State, c: Client, q: Query, limit: int) {
    var rows := SortBy(Where(s.table, SyncQuery(q, c.cursor, limit)), Ts);
    0 < limit < |rows| && rows[limit - 1].ts == rows[limit].ts
  }

  /** Exactly when a fetch leaves a row behind, whatever the timestamps are. */
  lemma FetchSkipsIff(s: State, c: Client, q: Query, limit: int)
    ensures (exists m :: LeftBehind(s, c, q, limit, m)) <==> TieAtLimit(s, c, q, limit)
  {
    hide Where, SortBy;
    var sync := SyncQuery(q, c.cursor, limit);
    var rows, batch := SortBy(Where(s.table, sync), Ts), Selected(s.table, sync);
    SortBySorts(Where(s.table, sync), Ts);
    if 0 < limit < |rows| {
      assert rows == batch + rows[limit..];
      assert rows[limit] in multiset(rows[limit..]);
      forall m | LeftBehind(s, c, q, limit, m)
        ensures TieAtLimit(s, c, q, limit)
      {
        assert batch[limit - 1] == rows[limit - 1];
        AtOrAfter(rows, limit, m);
        assert Ts(rows[limit - 1]) <= Ts(rows[limit]);
      }
      if TieAtLimit(s, c, q, limit) {
        assert LeftBehind(s, c, q, limit, rows[limit]);
      }
    } else {
      assert batch == rows;
    }
  }

  lemma AtOrAfter(rows: seq<Message>, n: nat, m: Message)
    requires Sorted(rows, Ts) && n < |rows| && multiset(rows[..n])[m] < multiset(rows)[m]
    ensures rows[n].ts <= m.ts
  {
    assert rows == rows[..n] + rows[n..];
    assert m in rows[n..];
    var i :| 0 <= i < |rows[n..]| && rows[n..][i] == m;
    assert Ts(rows[n]) <= Ts(rows[n + i]);
  }

  /** A row left behind is not fetched later either, as long as its timestamp stays. */
  lemma LeftBehindForGood(table: seq<Message>, q: Query, cursor: int, limit: int, m: Message)
    requires 0 < m.ts <= cursor
    ensures m !in Selected(table, SyncQuery(q, cursor, limit))
  {
    hide Where, SortBy;
    var sync := SyncQuery(q, cursor, limit);
    WhereCount(table, sync, m);
    SortBySorts(Where(table, sync), Ts);
    var rows := SortBy(Where(table, sync), Ts);
    assert m !in multiset(rows);
  }

  // ---------- the client catches up ----------

  function Remaining(s: State, c: Client, q: Query): nat {
    |Where(s.table, SyncQuery(q, c.cursor, 1))|
  }

  lemma {:induction false} WhereShrinks(table: seq<Message>, q: Query, a: int, b: int)
    requires 0 <= a <= b && forall i | 0 <= i < |table| :: table[i].ts > 0
    ensures |Where(table, SyncQuery(q, b, 1))| <= |Where(table, SyncQuery(q, a, 1))|
    ensures (exists i :: 0 <= i < |table| && Addressed(table[i], q) && a < table[i].ts <= b)
        ==> |Where(table, SyncQuery(q, b, 1))| < |Where(table, SyncQuery(q, a, 1))|
  {
    hide Addressed, Satisfies;
    if table != [] {
      WhereShrinks(table[1..], q, a, b);
      AfterCursor(q, a, 1, table[0]);
      AfterCursor(q, b, 1, table[0]);
      if i :| 0 <= i < |table| && Addressed(table[i], q) && a < table[i].ts <= b {
        assert i > 0 ==> table[1..][i - 1] == table[i];
      }
    }
  }

  lemma {:induction false} NothingRemains(s: State, c: Client, q: Query)
    requires Remaining(s, c, q) == 0 && GoodTimestamps(s.table, s.last) && c.cursor >= 0
    ensures forall m | m in s.table && Addressed(m, q) :: m.ts <= c.cursor
  {
    hide Addressed, Where;
    forall m | m in s.table && Addressed(m, q)
      ensures m.ts <= c.cursor
    {
      WhereCount(s.table, SyncQuery(q, c.cursor, 1), m);
      MemberByCount(s.table, m);
      AfterCursor(q, c.cursor, 1, m);
    }
  }

  /** Each fetch leaves less to fetch, until nothing is left. */
  lemma FetchProgress(s: State, c: Client, q: Query, limit: int, c0: int)
    requires Sound(s, c0) && c0 <= c.cursor && limit >= 1 && Remaining(s, c, q) > 0
    ensures Remaining(s, Fetched(s, c, q, limit), q) < Remaining(s, c, q)
  {
    hide Selected, Addressed, Where;
    var rows := Where(s.table, SyncQuery(q, c.cursor, 1));
    var batch := Selected(s.table, SyncQuery(q, c.cursor, limit));
    BatchFacts(s, q, c.cursor, limit, c0);
    WhereCount(s.table, SyncQuery(q, c.cursor, 1), rows[0]);
    MemberByCount(s.table, rows[0]);
    MemberByCount(rows, rows[0]);
    AfterCursor(q, c.cursor, 1, rows[0]);
    assert batch != [] && batch[0] in s.table && Addressed(batch[0], q);
    var i :| 0 <= i < |s.table| && s.table[i] == batch[0];
    assert s.table[i].ts > 0;
    assert forall k | 0 <= k < |s.table| :: s.table[k] in s.table;
    WhereShrinks(s.table, q, c.cursor, batch[|batch| - 1].ts);
  }

  function Drained(s: State, c: Client, q: Query, limit: int, n: nat): Client
    decreases n
  {
    if n == 0 then c else Drained(s, Fetched(s, c, q, limit), q, limit, n - 1)
  }

  /** A client that keeps fetching a quiet table ends up having received every message of it
      exactly once, in the order of their timestamps. */
  lemma {:induction false} CatchesUp(s: State, c: Client, q: Query, limit: int, c0: int, n: nat)
    requires Sound(s, c0) && ClientSound(s, c, c0) && Complete(s, c, q, c0)
    requires limit >= 1 && Remaining(s, c, q) <= n
    ensures var d := Drained(s, c, q, limit, n);
            IncreasingTs(d.received)
            && forall m | m in s.table && Addressed(m, q) && m.ts > c0 :: TimesReceived(d.received, m.id) == 1
    decreases n
  {
    hide Sound, Addressed, Fetched, Remaining;
    if n == 0 {
      SoundFacts(s, c0);
      NothingRemains(s, c, q);
      forall m | m in s.table && Addressed(m, q) && m.ts > c0
        ensures TimesReceived(c.received, m.id) == 1
      {
        assert Got(c.received, m);
        ReceivedOnce(c.received, m.id);
      }
    } else {
      FetchSound(s, c, q, limit, c0);
      if Remaining(s, c, q) > 0 {
        FetchProgress(s, c, q, limit, c0);
      } else {
        NothingFetched(s, c, q, limit, c0);
      }
      CatchesUp(s, Fetched(s, c, q, limit), q, limit, c0, n - 1);
    }
  }

  lemma NothingFetched(s: State, c: Client, q: Query, limit: int, c0: int)
    requires Sound(s, c0) && c0 <= c.cursor && limit >= 1 && Remaining(s, c, q) == 0
    ensures Fetched(s, c, q, limit) == c
  {
    hide Selected, Addressed, Where;
    BatchFacts(s, q, c.cursor, limit, c0);
    NothingRemains(s, c, q);
    assert c.received + [] == c.received;
  }

  // ---------- what a query asks for, and what a step changes ----------

  /** A row answers a query without a limit exactly if it fits every filter that is given. */
  lemma FiltersTold(table: seq<Message>, q: Query, m: Message)
    requires q.limit <= 0
    ensures m in Selected(table, q)
       <==> m in table
            && (q.from in {None, Some("")} || Some(m.from) == q.from)
            && (q.excludeFrom in {None, Some("")} || Some(m.from) != q.excludeFrom)
            && (q.to in {None, Some("")} || m.to == q.to)
            && (q.channel in {None, Some("")} || Some(m.channel) == q.channel)
            && (q.since == 0 || q.since <= m.ts) && (q.before == 0 || m.ts < q.before)
            && (q.after == 0 || q.after < m.ts)
  {
    hide Where, SortBy;
    WhereCount(table, q, m);
    SortBySorts(Where(table, q), Ts);
    MemberByCount(Selected(table, q), m);
    MemberByCount(table, m);
  }

  /** A step leaves all messages alone but one: the one posted, edited, reacted to or deleted. */
  function Subject(s: State, step: Step): MessageId {
    match step
    case Send(now, random, _) => Posted(if now > s.last then now else s.last + 1, random)
    case Edit(id, _, _) => id
    case React(id, _, _) => id
    case Delete(id, _) => id
  }

  lemma OthersStay(s: State, step: Step, m: Message)
    requires m.id != Subject(s, step)
    ensures m in Apply(s, step).table <==> m in s.table
  {
    var id := Subject(s, step);
    WithoutMember(s.table, id, m);
    LookupId(s.table, id);
    assert step.Send? || step.Delete? || Lookup(s.table, id) == None || Lookup(s.table, id).value.id == id;
    if Apply(s, step).table != s.table && !step.Delete? {
      var table := Apply(s, step).table;
      assert table == Without(s.table, id) + [table[|table| - 1]];
      assert table[|table| - 1].id == id;
    }
  }

  /** A posted message has the fields it was given, its own time, and nothing yet of edits and reactions. */
  lemma PostTold(s: State, now: int, random: string, d: Draft)
    ensures var t := Apply(s, Send(now, random, d));
            var ts := if now > s.last then now else s.last + 1;
            t.last == ts
            && Lookup(t.table, Posted(ts, random))
               == Some(Message(Posted(ts, random), ts, d.from, d.to, d.channel, d.content, map[], 0))
  {
    LookupUpserted(s.table, Sent(now, s.last, random, d));
  }

  /** Only its author edits a message, to a text that is not blank; the edit is trimmed and counted. */
  lemma EditTold(s: State, id: MessageId, editor: string, content: string)
    ensures var old_, new_ := Lookup(s.table, id), Lookup(Apply(s, Edit(id, editor, content)).table, id);
            new_ == if old_.Some? && old_.value.from == editor && !Blank(content)
                    then Some(old_.value.(content := Trim(content), edits := old_.value.edits + 1)) else old_
  {
    TrimCuts(content);
    LookupId(s.table, id);
    if Lookup(s.table, id).Some? {
      var m := Lookup(s.table, id).value;
      LookupUpserted(s.table, m.(content := Trim(content), edits := m.edits + 1));
    }
  }

  /** Only its author deletes a message. */
  lemma DeleteTold(s: State, id: MessageId, actor: string)
    ensures var old_, new_ := Lookup(s.table, id), Lookup(Apply(s, Delete(id, actor)).table, id);
            new_ == if old_.Some? && old_.value.from == actor then None else old_
  {
    LookupWithout(s.table, id);
  }

  lemma {:induction false} LookupWithout(table: seq<Message>, id: MessageId)
    ensures Lookup(Without(table, id), id) == None
  {
    if table != [] {
      LookupWithout(table[1..], id);
      if table[0].id != id {
        assert Without(table, id)[1..] == Without(table[1..], id);
      } else {
        assert Without(table, id) == Without(table[1..], id);
      }
    }
  }

  // ---------- reactions ----------

  function AgentsOf(reactions: map<string, seq<string>>, emoji: string): seq<string> {
    if emoji in reactions then reactions[emoji] else []
  }

  /** Every listed emoji has agents, each of them once. */
  predicate ProperReactions(reactions: map<string, seq<string>>) {
    forall e | e in reactions ::
      reactions[e] != [] && forall i, j | 0 <= i < j < |reactions[e]| :: reactions[e][i] != reactions[e][j]
  }

  lemma {:induction false} RemoveOne(names: seq<string>, name: string)
    requires name in names && forall i, j | 0 <= i < j < |names| :: names[i] != names[j]
    ensures forall x :: x in Remove(names, name) <==> x in names && x != name
    ensures forall i, j | 0 <= i < j < |Remove(names, name)| :: Remove(names, name)[i] != Remove(names, name)[j]
  {
    assert names == [names[0]] + names[1..];
    if names[0] == name {
      assert forall x | x in names[1..] :: exists i :: 0 <= i < |names[1..]| && names[1..][i] == x && names[i + 1] == x;
    } else {
      RemoveOne(names[1..], name);
      assert forall i | 0 <= i < |Remove(names[1..], name)| :: Remove(names[1..], name)[i] in Remove(names[1..], name);
      assert forall x | x in names[1..] :: x != names[0] by {
        assert forall i | 0 <= i < |names[1..]| :: names[1..][i] == names[i + 1];
      }
    }
  }

  /** Toggling changes whether the agent has reacted with the emoji, and nothing about anyone else. */
  lemma ToggleTold(reactions: map<string, seq<string>>, emoji: string, agent: string)
    requires ProperReactions(reactions)
    ensures var t := Toggled(reactions, emoji, agent);
            ProperReactions(t)
            && forall e, x :: x in AgentsOf(t, e) <==>
                 if e == emoji && x == agent then x !in AgentsOf(reactions, e) else x in AgentsOf(reactions, e)
  {
    var agents := AgentsOf(reactions, emoji);
    if agent in agents {
      RemoveOne(agents, agent);
      if Remove(agents, agent) == [] {
        assert forall x | x in agents :: x == agent;
      }
    }
  }
}
