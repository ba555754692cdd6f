/**
 * The history save endpoint: it validates the request, derives a short title from the
 * first user turn, and either replaces the turns of the caller's existing record or
 * creates a new one.
 */
module SaveRoute {
  import opened Wrappers
  import opened JsString
  import opened Messages
  import opened ChatStore

  /** The request body; `messages` is `None` when the field is absent or falsy. */
  datatype SaveRequest = SaveRequest(userId: Option<string>, messages: Option<seq<Message>>, chatId: Option<string>)

  const ShortTitleLength := 30
  const Ellipsis := "..."
  const DefaultTitle := "New Chat"
  const ObjectText := "[object Object]"

  /** What `String(array)` gives for an array of `n` plain objects: `n` copies of "[object Object]" joined by ",". */
  function ObjectList(n: nat): (r: string)
    ensures n == 0 <==> r == ""
    ensures n > 0 ==> |r| == 16 * n - 1
    ensures forall i :: 0 <= i < |r| ==> r[i] == if i % 16 == 15 then ',' else ObjectText[i % 16]
  {
    if n == 0 then ""
    else if n == 1 then ObjectText
    else
      var r := ObjectList(n - 1) + "," + ObjectText;
      ObjectListTail(n, ObjectList(n - 1), r);
      r
  }

  /** The entry and separator added in front of the last copy sit at the positions the pattern says. */
  lemma ObjectListTail(n: nat, init: string, r: string)
    requires n > 1 && |init| == 16 * (n - 1) - 1 && r == init + "," + ObjectText
    requires forall i :: 0 <= i < |init| ==> init[i] == if i % 16 == 15 then ',' else ObjectText[i % 16]
    ensures forall i :: 0 <= i < |r| ==> r[i] == if i % 16 == 15 then ',' else ObjectText[i % 16]
  {
    forall i | 0 <= i < |r|
      ensures r[i] == if i % 16 == 15 then ',' else ObjectText[i % 16]
    {
      if i < |init| {
        assert r[i] == init[i];
      } else if i == |init| {
        assert i % 16 == 15;
      } else {
        var k := i - 16 * (n - 1);
        assert 0 <= k < 15 && r[i] == ObjectText[k];
        assert i % 16 == k;
      }
    }
  }

  /**
   * `content.slice(0, 30) + (content.length > 30 ? '...' : '')`. String content keeps
   * its first 30 characters and gains "..." exactly when it was longer. Array content
   * slices the array, which the `+` then turns into a list of "[object Object]". Any
   * other content has no `slice`: `None`, the call throws.
   */
  function ShortTitle(c: Content): (title: Option<string>)
    ensures title.None? <==> c.NonText?
    ensures c.Text? ==> |title.value| <= ShortTitleLength + |Ellipsis|
    ensures c.Text? && |c.s| <= ShortTitleLength ==> title.value == c.s
    ensures c.Text? && |c.s| > ShortTitleLength ==> title.value == c.s[..ShortTitleLength] + Ellipsis
  {
    match c
    case Text(s) =>
      var head := Prefix(s, ShortTitleLength);
      Some(head + (if |s| > ShortTitleLength then Ellipsis else ""))
    case Parts(ps) =>
      var head := ObjectList(if |ps| < ShortTitleLength then |ps| else ShortTitleLength);
      Some(head + (if |ps| > ShortTitleLength then Ellipsis else ""))
    case NonText => None
  }

  /** An image-only turn is titled "[object Object]", not with any of its text. */
  lemma ArrayContentTitle(p: Part)
    ensures ShortTitle(Parts([p])) == Some(ObjectText)
  {
    assert ObjectList(1) + "" == ObjectText;
  }

  /**
   * The title of a saved record: from the first user turn when there is one, "New Chat"
   * otherwise; `None` when the first user turn's content has no `slice`.
   */
  function SaveTitle(ms: seq<Message>): (title: Option<string>)
    ensures FindRole(ms, UserRole).None? ==> title == Some(DefaultTitle)
    ensures FindRole(ms, UserRole).Some? ==> title == ShortTitle(FindRole(ms, UserRole).value.content)
  {
    if |ms| > 0 then
      match FindRole(ms, UserRole)
      case None => Some(DefaultTitle)
      case Some(m) => ShortTitle(m.content)
    else Some(DefaultTitle)
  }

  /** The store call the endpoint makes. */
  datatype SaveWrite =
    | ReplaceTurns(chatId: string, userId: string, messages: seq<Message>)
    | CreateRecord(userId: string, title: string, messages: seq<Message>)

  datatype SavePlan = MissingRequirements | Failed | Write(write: SaveWrite)

  /**
   * The decision the endpoint makes before touching the store. A falsy `userId` or an
   * absent `messages` is a 400; a failed connection or a title that throws is a 500 (the
   * title is derived before `chatId` is looked at). Otherwise a truthy `chatId` replaces
   * that record's turns and anything else creates a record.
   */
  function PlanSave(req: SaveRequest, dbConnects: bool): (p: SavePlan)
    ensures p == MissingRequirements <==> !Truthy(req.userId) || req.messages.None?
    ensures p.Write? <==> Truthy(req.userId) && req.messages.Some? && dbConnects && SaveTitle(req.messages.value).Some?
    ensures p.Write? && Truthy(req.chatId) ==>
              p.write == ReplaceTurns(req.chatId.value, req.userId.value, req.messages.value)
    ensures p.Write? && !Truthy(req.chatId) ==>
              p.write == CreateRecord(req.userId.value, SaveTitle(req.messages.value).value, req.messages.value)
  {
    if !Truthy(req.userId) || req.messages.None? then MissingRequirements
    else if !dbConnects then Failed
    else
      match SaveTitle(req.messages.value)
      case None => Failed
      case Some(title) =>
        if Truthy(req.chatId) then Write(ReplaceTurns(req.chatId.value, req.userId.value, req.messages.value))
        else Write(CreateRecord(req.userId.value, title, req.messages.value))
  }

  datatype SaveResponse = BadRequest | ServerError | Saved(chat: Option<Chat>)

  /**
   * The `POST` handler over the store. A replacement touches only a record with that
   * identifier owned by the caller, keeps its title, and answers `null` when there is
   * none; a creation adds exactly one record. Records of other owners never change.
   */
  method Save(store: Store, req: SaveRequest, dbConnects: bool) returns (resp: SaveResponse)
    requires store.Valid()
    modifies store
    ensures store.Valid()
    ensures resp == BadRequest <==> PlanSave(req, dbConnects) == MissingRequirements
    ensures resp == ServerError <==> PlanSave(req, dbConnects) == Failed
    ensures !PlanSave(req, dbConnects).Write? ==> store.chats == old(store.chats)
    ensures PlanSave(req, dbConnects).Write? ==>
              forall id :: id in old(store.chats) && old(store.chats)[id].userId != req.userId.value ==>
                id in store.chats && store.chats[id] == old(store.chats)[id]
    ensures PlanSave(req, dbConnects).Write? && PlanSave(req, dbConnects).write.ReplaceTurns? ==>
              var id := req.chatId.value;
              if id in old(store.chats) && old(store.chats)[id].userId == req.userId.value then
                store.chats == old(store.chats)[id := old(store.chats)[id].(messages := req.messages.value)]
                && resp == Saved(Some(store.chats[id]))
              else
                store.chats == old(store.chats) && resp == Saved(None)
    ensures PlanSave(req, dbConnects).Write? && PlanSave(req, dbConnects).write.CreateRecord? ==>
              var w := PlanSave(req, dbConnects).write;
              exists id :: id !in old(store.chats) && store.chats == old(store.chats)[id := Chat(w.userId, w.title, w.messages)]
                && resp == Saved(Some(store.chats[id]))
  {
    var plan := PlanSave(req, dbConnects);
    match plan
    case MissingRequirements =>
      resp := BadRequest;
    case Failed =>
      resp := ServerError;
    case Write(ReplaceTurns(chatId, userId, messages)) =>
      var updated := store.ReplaceMessages(chatId, userId, messages);
      resp := Saved(updated);
    case Write(CreateRecord(userId, title, messages)) =>
      var id := store.Create(userId, title, messages);
      resp := Saved(Some(store.chats[id]));
  }
}
