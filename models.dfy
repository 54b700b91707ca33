/**
 * The database tables the chat route reads and writes (app/server/models.py),
 * as sequences of rows in insertion order. Row ids are the tables' serial keys,
 * so they increase with insertion; `created_at` defaults to the insertion time,
 * so ordering by it is insertion order.
 */
module Models {
  import opened Wrappers

  const DefaultMode: string := "discrete"
  const DefaultLimit: nat := 8
  /** The limit the history endpoint passes. */
  const HistoryLimit: nat := 50

  datatype MemoryRow = MemoryRow(id: nat, userId: int, chatId: int, role: string, content: Option<string>)
  datatype ChatRow = ChatRow(id: nat, userId: int, name: Option<string>, collectionId: Option<int>, mode: string)
  datatype CollectionRow = CollectionRow(id: nat, userId: int, filename: string)

  predicate MemoryIdsIncreasing(rows: seq<MemoryRow>) {
    forall i, j :: 0 <= i < j < |rows| ==> rows[i].id < rows[j].id
  }

  predicate ChatIdsIncreasing(rows: seq<ChatRow>) {
    forall i, j :: 0 <= i < j < |rows| ==> rows[i].id < rows[j].id
  }

  predicate Belongs(m: MemoryRow, userId: int, chatId: int) {
    m.userId == userId && m.chatId == chatId
  }

  /** `WHERE user_id = %s AND chat_id = %s`, in table order. */
  function Matching(rows: seq<MemoryRow>, userId: int, chatId: int): (r: seq<MemoryRow>)
    ensures |r| <= |rows|
    ensures forall k :: 0 <= k < |r| ==> Belongs(r[k], userId, chatId) && r[k] in rows
  {
    if rows == [] then []
    else
      var last := rows[|rows| - 1];
      var before := Matching(rows[..|rows| - 1], userId, chatId);
      assert forall k :: 0 <= k < |before| ==> before[k] in rows;
      before + (if Belongs(last, userId, chatId) then [last] else [])
  }

  /** Every row of the chat is selected. */
  lemma {:induction false} MatchingComplete(rows: seq<MemoryRow>, userId: int, chatId: int)
    ensures forall k :: 0 <= k < |rows| && Belongs(rows[k], userId, chatId) ==> rows[k] in Matching(rows, userId, chatId)
    decreases |rows|
  {
    if rows != [] {
      var init := rows[..|rows| - 1];
      MatchingComplete(init, userId, chatId);
      assert forall k :: 0 <= k < |init| ==> init[k] == rows[k];
    }
  }

  /** Selecting keeps the table's id order. */
  lemma {:induction false} MatchingIncreasing(rows: seq<MemoryRow>, userId: int, chatId: int)
    requires MemoryIdsIncreasing(rows)
    ensures MemoryIdsIncreasing(Matching(rows, userId, chatId))
    decreases |rows|
  {
    if rows != [] {
      var init := rows[..|rows| - 1];
      var last := rows[|rows| - 1];
      MatchingIncreasing(init, userId, chatId);
      var before := Matching(init, userId, chatId);
      forall k | 0 <= k < |before|
        ensures before[k].id < last.id
      {
        var i :| 0 <= i < |init| && init[i] == before[k];
        assert rows[i] == init[i];
      }
    }
  }

  /**
   * `get_recent_memories(user_id, chat_id, limit)`: `ORDER BY id DESC LIMIT limit`,
   * then reversed, which is the last `limit` rows of the chat in table order.
   */
  function RecentMemories(rows: seq<MemoryRow>, userId: int, chatId: int, limit: nat := DefaultLimit): (r: seq<MemoryRow>)
    ensures |r| <= limit
    ensures |r| == |Matching(rows, userId, chatId)| || |r| == limit
    ensures forall k :: 0 <= k < |r| ==> Belongs(r[k], userId, chatId) && r[k] in rows
  {
    var m := Matching(rows, userId, chatId);
    if |m| <= limit then m else m[|m| - limit..]
  }

  /** The rows come back oldest first. */
  lemma RecentAscending(rows: seq<MemoryRow>, userId: int, chatId: int, limit: nat)
    requires MemoryIdsIncreasing(rows)
    ensures MemoryIdsIncreasing(RecentMemories(rows, userId, chatId, limit))
  {
    MatchingIncreasing(rows, userId, chatId);
  }

  /** The rows of the chat left out are all older than the rows returned. */
  lemma RecentAreNewest(rows: seq<MemoryRow>, userId: int, chatId: int, limit: nat)
    requires MemoryIdsIncreasing(rows)
    ensures var r := RecentMemories(rows, userId, chatId, limit);
      forall k, j :: 0 <= k < |rows| && Belongs(rows[k], userId, chatId) && rows[k] !in r && 0 <= j < |r| ==> rows[k].id < r[j].id
  {
    var m := Matching(rows, userId, chatId);
    var r := RecentMemories(rows, userId, chatId, limit);
    MatchingComplete(rows, userId, chatId);
    MatchingIncreasing(rows, userId, chatId);
    forall k, j | 0 <= k < |rows| && Belongs(rows[k], userId, chatId) && rows[k] !in r && 0 <= j < |r|
      ensures rows[k].id < r[j].id
    {
      var i :| 0 <= i < |m| && m[i] == rows[k];
      assert r == m[|m| - |r|..];
      assert r[j] == m[|m| - |r| + j];
    }
  }

  /** `list_chats_for_user(user_id)`: `WHERE user_id = %s ORDER BY created_at DESC`. */
  function ChatsForUser(rows: seq<ChatRow>, userId: int): (r: seq<ChatRow>)
    ensures forall k :: 0 <= k < |r| ==> r[k].userId == userId && r[k] in rows
  {
    if rows == [] then []
    else
      var last := rows[|rows| - 1];
      var after := ChatsForUser(rows[..|rows| - 1], userId);
      assert forall k :: 0 <= k < |after| ==> after[k] in rows;
      (if last.userId == userId then [last] else []) + after
  }

  predicate ChatIdsDecreasing(rows: seq<ChatRow>) {
    forall i, j :: 0 <= i < j < |rows| ==> rows[i].id > rows[j].id
  }

  lemma PrependNewer(first: ChatRow, rest: seq<ChatRow>)
    requires ChatIdsDecreasing(rest)
    requires forall k :: 0 <= k < |rest| ==> rest[k].id < first.id
    ensures ChatIdsDecreasing([first] + rest)
  {
    var r := [first] + rest;
    forall i, j | 0 <= i < j < |r|
      ensures r[i].id > r[j].id
    {
      assert r[j] == rest[j - 1];
      if i > 0 {
        assert r[i] == rest[i - 1];
      }
    }
  }

  /** Every chat of the user is listed, newest first. */
  lemma {:induction false} ChatsForUserNewestFirst(rows: seq<ChatRow>, userId: int)
    requires ChatIdsIncreasing(rows)
    ensures forall k :: 0 <= k < |rows| && rows[k].userId == userId ==> rows[k] in ChatsForUser(rows, userId)
    ensures ChatIdsDecreasing(ChatsForUser(rows, userId))
    decreases |rows|
  {
    if rows != [] {
      var init := rows[..|rows| - 1];
      var last := rows[|rows| - 1];
      ChatsForUserNewestFirst(init, userId);
      assert forall k :: 0 <= k < |init| ==> init[k] == rows[k];
      var after := ChatsForUser(init, userId);
      forall k | 0 <= k < |after|
        ensures after[k].id < last.id
      {
        var i :| 0 <= i < |init| && init[i] == after[k];
      }
      if last.userId == userId {
        PrependNewer(last, after);
      }
    }
  }

  /** The tables, changed only by inserts. */
  class Store {
    var memories: seq<MemoryRow>
    var chats: seq<ChatRow>
    var collections: seq<CollectionRow>
    var nextMemoryId: nat
    var nextChatId: nat

    /** Serial keys: ids increase with insertion and stay below the next one handed out. */
    predicate Valid()
      reads this
    {
      MemoryIdsIncreasing(memories) && (forall k :: 0 <= k < |memories| ==> memories[k].id < nextMemoryId) &&
      ChatIdsIncreasing(chats) && (forall k :: 0 <= k < |chats| ==> chats[k].id < nextChatId)
    }

    constructor(collections: seq<CollectionRow>)
      ensures Valid()
      ensures memories == [] && chats == [] && this.collections == collections
    {
      memories := [];
      chats := [];
      this.collections := collections;
      nextMemoryId := 1;
      nextChatId := 1;
    }

    /** `add_memory(user_id, chat_id, role, content)`: one more row, nothing else changes. */
    method AddMemory(userId: int, chatId: int, role: string, content: Option<string>)
      requires Valid()
      modifies this
      ensures Valid()
      ensures memories == old(memories) + [MemoryRow(old(nextMemoryId), userId, chatId, role, content)]
      ensures nextMemoryId == old(nextMemoryId) + 1
      ensures chats == old(chats) && collections == old(collections) && nextChatId == old(nextChatId)
    {
      memories := memories + [MemoryRow(nextMemoryId, userId, chatId, role, content)];
      nextMemoryId := nextMemoryId + 1;
    }

    /** `create_chat(user_id, name, collection_id, mode)`: one more chat with a new id, nothing else changes. */
    method CreateChat(userId: int, name: Option<string> := None, collectionId: Option<int> := None,
                      mode: string := DefaultMode)
      returns (id: nat)
      requires Valid()
      modifies this
      ensures Valid()
      ensures id == old(nextChatId) && forall k :: 0 <= k < |old(chats)| ==> old(chats)[k].id != id
      ensures chats == old(chats) + [ChatRow(id, userId, name, collectionId, mode)]
      ensures nextChatId == old(nextChatId) + 1
      ensures memories == old(memories) && collections == old(collections) && nextMemoryId == old(nextMemoryId)
    {
      id := nextChatId;
      chats := chats + [ChatRow(id, userId, name, collectionId, mode)];
      nextChatId := nextChatId + 1;
    }
  }

  /** A row just added is the newest of its chat: it closes every window onto that chat. */
  lemma AddedMemoryIsRecent(rows: seq<MemoryRow>, row: MemoryRow, limit: nat)
    requires limit > 0
    ensures var r := RecentMemories(rows + [row], row.userId, row.chatId, limit);
      |r| > 0 && r[|r| - 1] == row
  {
    assert (rows + [row])[..|rows|] == rows;
  }

  /** A chat just created heads its user's list. */
  lemma CreatedChatListedFirst(rows: seq<ChatRow>, chat: ChatRow)
    ensures var r := ChatsForUser(rows + [chat], chat.userId); |r| > 0 && r[0] == chat
  {
    assert (rows + [chat])[..|rows|] == rows;
  }
}
