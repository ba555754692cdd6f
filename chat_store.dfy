/**
 * The conversation collection the routes write to, reduced to a map from record
 * identifier to record. Only the three calls the routes make are modelled:
 * `Chat.create`, `Chat.findByIdAndUpdate` with `$push`/`$each`, and
 * `Chat.findOneAndUpdate` on `_id` and `userId`.
 */
module ChatStore {
  import opened Wrappers
  import opened Messages

  /** A stored conversation: its owner, its title and its turns (timestamps are not modelled). */
  datatype Chat = Chat(userId: string, title: string, messages: seq<Message>)

  class Store {
    var chats: map<string, Chat>
    /** How many records this store has created; new identifiers are drawn from it. */
    var created: nat

    /** Every identifier in use is shorter than the next one the store will hand out. */
    ghost predicate Valid()
      reads this
    {
      forall id :: id in chats ==> |id| < created
    }

    constructor ()
      ensures Valid() && chats == map[]
    {
      chats := map[];
      created := 0;
    }

    /** `Chat.create({userId, title, messages})`: a new record under an identifier not yet in use. */
    method Create(userId: string, title: string, messages: seq<Message>) returns (id: string)
      requires Valid()
      modifies this
      ensures Valid()
      ensures id !in old(chats)
      ensures chats == old(chats)[id := Chat(userId, title, messages)]
    {
      id := seq(created, _ => 'c');
      chats := chats[id := Chat(userId, title, messages)];
      created := created + 1;
    }

    /**
     * `Chat.findByIdAndUpdate(id, {$push: {messages: {$each: added}}})`: the turns are
     * appended to the record with that identifier, whoever owns it; the title is kept.
     * Nothing changes when there is no such record.
     */
    method PushMessages(id: string, added: seq<Message>)
      requires Valid()
      modifies this
      ensures Valid()
      ensures id in old(chats) ==> chats == old(chats)[id := old(chats)[id].(messages := old(chats)[id].messages + added)]
      ensures id !in old(chats) ==> chats == old(chats)
    {
      if id in chats {
        chats := chats[id := chats[id].(messages := chats[id].messages + added)];
      }
    }

    /**
     * `Chat.findOneAndUpdate({_id: id, userId}, {messages}, {new: true})`: the turns of
     * the record with that identifier AND that owner are replaced wholesale, and the
     * updated record is returned; otherwise nothing changes and the result is `null`.
     */
    method ReplaceMessages(id: string, userId: string, messages: seq<Message>) returns (updated: Option<Chat>)
      requires Valid()
      modifies this
      ensures Valid()
      ensures id in old(chats) && old(chats)[id].userId == userId ==>
                chats == old(chats)[id := old(chats)[id].(messages := messages)] && updated == Some(chats[id])
      ensures !(id in old(chats) && old(chats)[id].userId == userId) ==> chats == old(chats) && updated == None
    {
      if id in chats && chats[id].userId == userId {
        chats := chats[id := chats[id].(messages := messages)];
        updated := Some(chats[id]);
      } else {
        updated := None;
      }
    }
  }
}
