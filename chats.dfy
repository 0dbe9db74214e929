/** The chat service: a list of chat sessions, kept in one file. Chats are looked up,
    created, renamed or given new messages, and deleted by id. Clock readings are
    passed in as `now`. */
module Chats {
  import opened Wrappers
  import opened Search

  datatype Message = Message(role: string, content: string, timestamp: int)

  /** A chat session; the id is whatever the creator supplied, possibly none. */
  datatype Chat = Chat(id: Option<string>, name: string, messages: seq<Message>, createdAt: int, updatedAt: int)

  /** What a new chat is made from, or an update supplies. */
  datatype ChatData = ChatData(id: Option<string>, name: Option<string>, messages: Option<seq<Message>>)

  const DefaultName := "New Chat"

  /** The first position of a chat with the id, if any; a chat without an id matches none. */
  function FindChat(chats: seq<Chat>, id: string): (r: Option<nat>)
    ensures r.None? <==> forall k :: 0 <= k < |chats| ==> chats[k].id != Some(id)
    ensures r.Some? ==> r.value < |chats| && chats[r.value].id == Some(id)
                        && forall k :: 0 <= k < r.value ==> chats[k].id != Some(id)
  {
    FirstIndex(chats, (c: Chat) => c.id == Some(id))
  }

  /** The chats without the id, in their order. */
  function WithoutChat(chats: seq<Chat>, id: string): (r: seq<Chat>)
    ensures |r| <= |chats|
    ensures |r| < |chats| <==> exists k :: 0 <= k < |chats| && chats[k].id == Some(id)
    ensures forall c :: c in r <==> c in chats && c.id != Some(id)
  {
    if chats == [] then []
    else if chats[0].id != Some(id) then
      var rest := WithoutChat(chats[1..], id);
      assert forall k :: 1 <= k < |chats| ==> chats[k] == chats[1..][k - 1];
      [chats[0]] + rest
    else WithoutChat(chats[1..], id)
  }

  class ChatService {
    var chats: seq<Chat>

    constructor(initial: seq<Chat>)
      ensures chats == initial
    {
      chats := initial;
    }

    /** `get_chat_by_id`: the first chat with the id, or none. */
    method GetChatById(chatId: string) returns (r: Option<Chat>)
      ensures FindChat(chats, chatId).None? ==> r.None?
      ensures FindChat(chats, chatId).Some? ==> r == Some(chats[FindChat(chats, chatId).value])
    {
      for i := 0 to |chats|
        invariant forall k :: 0 <= k < i ==> chats[k].id != Some(chatId)
      {
        if chats[i].id == Some(chatId) {
          return Some(chats[i]);
        }
      }
      return None;
    }

    /** `create_chat`: appends exactly one chat, named "New Chat" unless a name is
        given, with the given messages (none by default), stamped `now`. */
    method CreateChat(data: ChatData, now: int) returns (chat: Chat)
      modifies this
      ensures chat == Chat(data.id, data.name.GetOr(DefaultName), data.messages.GetOr([]), now, now)
      ensures chats == old(chats) + [chat]
    {
      var messages: seq<Message> := [];
      var given := data.messages.GetOr([]);
      for i := 0 to |given|
        invariant messages == given[..i]
      {
        messages := messages + [given[i]];
      }
      assert given[..|given|] == given;
      chat := Chat(data.id, data.name.GetOr(DefaultName), messages, now, now);
      chats := chats + [chat];
    }

    /** `update_chat`: the first chat with the id takes the given name and messages,
        keeping its own where none are given, and is stamped `now`; nothing else
        changes. An unknown id gives nothing and changes nothing. */
    method UpdateChat(chatId: string, data: ChatData, now: int) returns (r: Option<Chat>)
      modifies this
      ensures FindChat(old(chats), chatId).None? ==> r.None? && chats == old(chats)
      ensures FindChat(old(chats), chatId).Some? ==>
        var i := FindChat(old(chats), chatId).value;
        var before := old(chats)[i];
        && r == Some(before.(name := data.name.GetOr(before.name),
                             messages := data.messages.GetOr(before.messages),
                             updatedAt := now))
        && chats == old(chats)[i := r.value]
    {
      for i := 0 to |chats|
        invariant forall k :: 0 <= k < i ==> chats[k].id != Some(chatId)
      {
        var chat := chats[i];
        if chat.id == Some(chatId) {
          chats := chats[i := chat.(name := data.name.GetOr(chat.name),
                                    messages := data.messages.GetOr(chat.messages),
                                    updatedAt := now)];
          return Some(chats[i]);
        }
      }
      return None;
    }

    /** `delete_chat`: removes every chat with the id and reports whether any was. */
    method DeleteChat(chatId: string) returns (deleted: bool)
      modifies this
      ensures deleted <==> exists k :: 0 <= k < |old(chats)| && old(chats)[k].id == Some(chatId)
      ensures chats == WithoutChat(old(chats), chatId)
    {
      var initialCount := |chats|;
      var remaining := WithoutChat(chats, chatId);
      if |remaining| < initialCount {
        chats := remaining;
        return true;
      }
      assert remaining == chats by {
        NothingRemoved(chats, chatId);
      }
      return false;
    }
  }

  /** Filtering out an id no chat has keeps the list as it is. */
  lemma {:induction false} NothingRemoved(chats: seq<Chat>, id: string)
    requires |WithoutChat(chats, id)| == |chats|
    ensures WithoutChat(chats, id) == chats
  {
    if chats != [] {
      if chats[0].id == Some(id) {
        assert false;
      } else {
        NothingRemoved(chats[1..], id);
        assert chats == [chats[0]] + chats[1..];
      }
    }
  }
}
