/**
 * The mutation guard of utils/messageHandler.js. A set of pending edit keys
 * serves as a per-message lock (the dispatcher also parks its tap keys in
 * it), texts are truncated to Telegram's limit, an edit that fails because
 * the message cannot be edited falls back to sending a new message, and a
 * send that fails transiently is retried once. The Telegram transport is a
 * parameter: the outcomes of the first and of a possible second call.
 */
module MessageHandling {
  import opened Js
  import opened Text
  import opened Keyboards

  /** What the transport answers to one call: the id of the resulting
      message, or a rejection with its error message. */
  datatype Outcome = Ok(messageId: int) | Err(message: string)

  /** The answers to the first and (if it is made) the second transport call. */
  datatype Transport = Transport(first: Outcome, second: Outcome)

  /** The send/edit options the handler passes through. */
  datatype Options = Options(parseMode: Option<string>, markup: Option<Markup>)

  const NO_OPTIONS: Options := Options(None, None)

  function Markdown(markup: Option<Markup>): Options {
    Options(Some("Markdown"), markup)
  }

  /** A call made on the transport. */
  datatype Call =
    | EditCall(chatId: int, messageId: int, text: string, options: Options)
    | SendCall(chatId: int, text: string, options: Options)
    | AnswerCall(queryId: string, text: string)

  /** How a guarded operation settles: skipped (`null`), resolved with a
      message id, or rejected with an error message. */
  datatype Reply = Skipped | Done(messageId: int) | Thrown(message: string)

  /** The reply, the calls made, and the message id cached for the chat, if any. */
  datatype Effect = Effect(reply: Reply, calls: seq<Call>, cached: Option<int>)

  // ---------------------------------------------------------------------
  // Text limit
  // ---------------------------------------------------------------------

  const MAX_TEXT: nat := 4096

  /** Text over 4096 characters becomes its first 4090 plus `...`. */
  function Truncate(text: string): string {
    if |text| > MAX_TEXT then text[..4090] + "..." else text
  }

  /** Short text is unchanged; long text becomes 4093 characters that keep the first 4090. */
  lemma TruncateBounds(text: string)
    ensures |text| <= MAX_TEXT ==> Truncate(text) == text
    ensures |text| > MAX_TEXT ==> |Truncate(text)| == 4093 && StartsWith(Truncate(text), text[..4090])
    ensures |Truncate(text)| <= MAX_TEXT
  {
    if |text| > MAX_TEXT {
      assert Truncate(text)[..4090] == text[..4090];
    }
  }

  /** Truncating an already truncated text changes nothing. */
  lemma TruncateIdempotent(text: string)
    ensures Truncate(Truncate(text)) == Truncate(text)
  {
    TruncateBounds(text);
  }

  // ---------------------------------------------------------------------
  // Error classes
  // ---------------------------------------------------------------------

  const NOT_FOUND_PHRASE: string := "message to edit not found"

  const EDIT_ERRORS: seq<string> := [
    NOT_FOUND_PHRASE,
    "MESSAGE_ID_INVALID",
    "message is not modified",
    "Bad Request: " + NOT_FOUND_PHRASE,
    "message can't be edited"]

  /** `isEditError`: the lower-cased message contains one of the lower-cased phrases. */
  predicate IsEditError(message: string) {
    exists i :: 0 <= i < |EDIT_ERRORS| && Contains(ToLower(message), ToLower(EDIT_ERRORS[i]))
  }

  /** The test ignores the letter case of the error message. */
  lemma EditErrorIgnoresCase(message: string)
    ensures IsEditError(message) <==> IsEditError(ToLower(message))
  {
    ToLowerIdempotent(message);
  }

  /** Every listed phrase, as written, is classified as an edit error. */
  lemma PhrasesAreEditErrors(i: nat)
    requires i < |EDIT_ERRORS|
    ensures IsEditError(EDIT_ERRORS[i])
  {
    ContainsSelf(ToLower(EDIT_ERRORS[i]));
  }

  /** The fourth phrase adds nothing: a message containing it contains the first. */
  lemma FourthPhraseRedundant(message: string)
    requires Contains(ToLower(message), ToLower(EDIT_ERRORS[3]))
    ensures Contains(ToLower(message), ToLower(EDIT_ERRORS[0]))
  {
    LongerPhraseRedundant(message, "Bad Request: ", EDIT_ERRORS[0]);
  }

  lemma LongerPhraseRedundant(message: string, head: string, phrase: string)
    requires Contains(ToLower(message), ToLower(head + phrase))
    ensures Contains(ToLower(message), ToLower(phrase))
  {
    ToLowerConcat(head, phrase);
    ContainsSuffix(ToLower(head), ToLower(phrase));
    ContainsTransitive(ToLower(message), ToLower(head + phrase), ToLower(phrase));
  }

  /** The retry test of `safeSendMessage`, which is case-sensitive. */
  predicate IsTransient(message: string) {
    Contains(message, "retry after") || Contains(message, "timeout")
  }

  /** Telegram's flood-control rejection is retried. */
  lemma FloodControlIsTransient(prefix: string, seconds: string)
    ensures IsTransient(prefix + "retry after " + seconds)
  {
    var s := prefix + "retry after " + seconds;
    assert s[|prefix|..][..11] == "retry after";
    ContainsAt(s, "retry after", |prefix|);
  }

  // ---------------------------------------------------------------------
  // The message-id cache, a map in insertion order
  // ---------------------------------------------------------------------

  predicate DistinctKeys(cache: seq<(int, int)>) {
    forall i, j :: 0 <= i < j < |cache| ==> cache[i].0 != cache[j].0
  }

  function Keys(cache: seq<(int, int)>): (ks: seq<int>)
    ensures |ks| == |cache|
    ensures forall i :: 0 <= i < |cache| ==> ks[i] == cache[i].0
  {
    seq(|cache|, i requires 0 <= i < |cache| => cache[i].0)
  }

  /** `messageCache.get(chatId)`. */
  function CacheGet(cache: seq<(int, int)>, chatId: int): Option<int> {
    if cache == [] then None
    else if cache[0].0 == chatId then Some(cache[0].1)
    else CacheGet(cache[1..], chatId)
  }

  /** `messageCache.set(chatId, id)`: an existing key keeps its place, a new
      key goes last. */
  function CacheSet(cache: seq<(int, int)>, chatId: int, messageId: int): seq<(int, int)> {
    if cache == [] then [(chatId, messageId)]
    else if cache[0].0 == chatId then [(chatId, messageId)] + cache[1..]
    else [cache[0]] + CacheSet(cache[1..], chatId, messageId)
  }

  /** A set keeps the key order and appends a key it did not hold. */
  lemma {:induction false} CacheSetKeys(cache: seq<(int, int)>, chatId: int, messageId: int)
    ensures chatId in Keys(cache) ==> Keys(CacheSet(cache, chatId, messageId)) == Keys(cache)
    ensures chatId !in Keys(cache) ==> Keys(CacheSet(cache, chatId, messageId)) == Keys(cache) + [chatId]
  {
    var r := CacheSet(cache, chatId, messageId);
    if cache == [] {
    } else if cache[0].0 == chatId {
      assert Keys(cache)[0] == chatId;
      assert Keys(r) == Keys(cache);
    } else {
      var rest := CacheSet(cache[1..], chatId, messageId);
      CacheSetKeys(cache[1..], chatId, messageId);
      assert Keys(cache) == [cache[0].0] + Keys(cache[1..]);
      assert Keys(r) == [cache[0].0] + Keys(rest);
    }
  }

  /** A set keeps the keys distinct. */
  lemma CacheSetDistinct(cache: seq<(int, int)>, chatId: int, messageId: int)
    requires DistinctKeys(cache)
    ensures DistinctKeys(CacheSet(cache, chatId, messageId))
  {
    var r := CacheSet(cache, chatId, messageId);
    CacheSetKeys(cache, chatId, messageId);
    forall i, j | 0 <= i < j < |r| ensures r[i].0 != r[j].0 {
      assert r[i].0 == Keys(r)[i] && r[j].0 == Keys(r)[j];
      if j < |cache| {
        assert Keys(cache)[i] == cache[i].0 && Keys(cache)[j] == cache[j].0;
      } else {
        assert Keys(cache)[i] == cache[i].0;
      }
    }
  }

  /** After a set, the key reads back the new id and every other key is unchanged. */
  lemma {:induction false} CacheSetGet(cache: seq<(int, int)>, chatId: int, messageId: int, other: int)
    ensures CacheGet(CacheSet(cache, chatId, messageId), chatId) == Some(messageId)
    ensures other != chatId ==> CacheGet(CacheSet(cache, chatId, messageId), other) == CacheGet(cache, other)
  {
    if cache != [] && cache[0].0 != chatId {
      CacheSetGet(cache[1..], chatId, messageId, other);
    }
  }

  /** Setting a key the cache does not hold appends the entry. */
  lemma {:induction false} CacheSetNew(cache: seq<(int, int)>, chatId: int, messageId: int)
    requires chatId !in Keys(cache)
    ensures CacheSet(cache, chatId, messageId) == cache + [(chatId, messageId)]
  {
    if cache != [] {
      assert Keys(cache)[0] == cache[0].0;
      assert Keys(cache[1..]) == Keys(cache)[1..];
      CacheSetNew(cache[1..], chatId, messageId);
      assert cache == [cache[0]] + cache[1..];
    }
  }

  function ApplyCache(cache: seq<(int, int)>, chatId: int, cached: Option<int>): seq<(int, int)> {
    if cached.Some? then CacheSet(cache, chatId, cached.value) else cache
  }

  // ---------------------------------------------------------------------
  // The protocols
  // ---------------------------------------------------------------------

  /** `${chatId}_${messageId}`. */
  function EditKey(chatId: int, messageId: int): string {
    IntToString(chatId) + "_" + IntToString(messageId)
  }

  /** What `safeEditMessage` does, given whether its key is already pending. */
  function EditEffect(pending: bool, chatId: int, messageId: int, text: string, options: Options, t: Transport): Effect {
    if pending then Effect(Skipped, [], None)
    else
      var body := Truncate(text);
      var edit := EditCall(chatId, messageId, body, options);
      match t.first
      case Ok(id) => Effect(Done(id), [edit], None)
      case Err(msg) =>
        if IsEditError(msg) then
          var send := SendCall(chatId, body, options);
          match t.second
          case Ok(id) => Effect(Done(id), [edit, send], Some(id))
          case Err(fallbackMsg) => Effect(Thrown(fallbackMsg), [edit, send], None)
        else Effect(Thrown(msg), [edit], None)
  }

  /** What `safeSendMessage` does. */
  function SendEffect(chatId: int, text: string, options: Options, t: Transport): Effect {
    var send := SendCall(chatId, Truncate(text), options);
    match t.first
    case Ok(id) => Effect(Done(id), [send], Some(id))
    case Err(msg) =>
      if IsTransient(msg) then
        match t.second
        case Ok(id) => Effect(Done(id), [send, send], Some(id))
        case Err(retryMsg) => Effect(Thrown(retryMsg), [send, send], None)
      else Effect(Thrown(msg), [send], None)
  }

  /** The navigation helpers' choice: edit when there is a message id, send otherwise. */
  function ShowEffect(pending: bool, chatId: int, messageId: int, text: string, options: Options, t: Transport): Effect {
    if messageId != 0 then EditEffect(pending, chatId, messageId, text, options, t)
    else SendEffect(chatId, text, options, t)
  }

  /** The edit protocol. A pending key skips without any call. Otherwise
      exactly one edit is tried with the truncated text; a fallback send of
      the same text follows iff the edit failed with an edit-class error, and
      only a successful fallback is cached, under the id of the message it
      delivered. The reply is the edited or the delivered message; a failed
      fallback, or any other failure of the edit, is passed on. */
  lemma EditProtocol(pending: bool, chatId: int, messageId: int, text: string, options: Options, t: Transport)
    ensures var e := EditEffect(pending, chatId, messageId, text, options, t);
            && (pending ==> e == Effect(Skipped, [], None))
            && (!pending ==>
                  && 1 <= |e.calls| <= 2
                  && e.calls[0] == EditCall(chatId, messageId, Truncate(text), options)
                  && (|e.calls| == 2 <==> t.first.Err? && IsEditError(t.first.message))
                  && (|e.calls| == 2 ==> e.calls[1] == SendCall(chatId, Truncate(text), options))
                  && (e.cached.Some? <==> t.first.Err? && IsEditError(t.first.message) && t.second.Ok?)
                  && (t.first.Ok? ==> e.reply == Done(t.first.messageId) && e.cached == None)
                  && (e.cached.Some? ==> e.cached == Some(t.second.messageId) && e.reply == Done(t.second.messageId))
                  && (t.first.Err? && IsEditError(t.first.message) && t.second.Err? ==> e.reply == Thrown(t.second.message))
                  && (t.first.Err? && !IsEditError(t.first.message) ==> e.reply == Thrown(t.first.message)))
  {
  }

  /** The send protocol: one send of the truncated text, and exactly one
      retry iff the first failure is transient; a success is cached. */
  lemma SendProtocol(chatId: int, text: string, options: Options, t: Transport)
    ensures var e := SendEffect(chatId, text, options, t);
            && (forall i :: 0 <= i < |e.calls| ==> e.calls[i] == SendCall(chatId, Truncate(text), options))
            && (|e.calls| == 2 <==> t.first.Err? && IsTransient(t.first.message))
            && (|e.calls| == 1 <==> !(t.first.Err? && IsTransient(t.first.message)))
            && (e.reply.Done? ==> e.cached == Some(e.reply.messageId))
            && (e.cached.Some? ==> e.reply.Done?)
            && (e.reply.Done? || e.reply.Thrown?)
  {
  }

  // ---------------------------------------------------------------------
  // Keyboards for the navigation helpers
  // ---------------------------------------------------------------------

  const WELCOME_TEXT: string := " 🎉 Welcome to Fafullz Bot \n\n 🏠 Main Menu\n\nWhat would you like to do?"
  const SHOP_TEXT: string := "🛍️ **Shop Categories**\n\nLoading categories..."
  const LOADING_TEXT: string := "⏳ Loading..."

  /** `backOptions[backButton] || keyboards.backToMain`. */
  function BackOptions(backButton: string): (m: Markup)
    ensures backButton == "shop" ==> m == BACK_TO_SHOP
    ensures backButton == "help" ==> m == BACK_TO_HELP
    ensures backButton != "shop" && backButton != "help" ==> m == BACK_TO_MAIN
  {
    if backButton == "main_menu" then BACK_TO_MAIN
    else if backButton == "shop" then BACK_TO_SHOP
    else if backButton == "help" then BACK_TO_HELP
    else BACK_TO_MAIN
  }

  /** `safeAnswerCallback`: one answer, `text || ''`; its failure is swallowed. */
  function AnswerCallback(queryId: string, text: Option<string>): (c: Call)
    ensures c.AnswerCall? && c.queryId == queryId
    ensures c.text == if text.Some? then text.value else ""
  {
    AnswerCall(queryId, text.GetOr(""))
  }

  // ---------------------------------------------------------------------
  // The handler
  // ---------------------------------------------------------------------

  /** The cache threshold of `cleanupPendingEdits` and how much of it survives. */
  const CACHE_LIMIT: nat := 100
  const CACHE_KEEP: nat := 50

  class MessageHandler {
    var pendingEdits: set<string>
    var messageCache: seq<(int, int)>

    ghost predicate Valid()
      reads this
    {
      DistinctKeys(messageCache)
    }

    constructor ()
      ensures Valid() && pendingEdits == {} && messageCache == []
    {
      pendingEdits := {};
      messageCache := [];
    }

    /** `getCachedMessageId`. */
    function CachedMessageId(chatId: int): (id: Option<int>)
      reads this
      ensures id.Some? <==> chatId in Keys(messageCache)
      ensures id.Some? ==> (chatId, id.value) in messageCache
      ensures Valid() ==> forall v :: id == Some(v) <==> (chatId, v) in messageCache
    {
      CacheGetIn(messageCache, chatId);
      CacheLookup(messageCache, chatId);
      CacheGet(messageCache, chatId)
    }

    /** `safeEditMessage`: the key is taken for the duration of the call and
        released on every exit, so the pending set ends as it began. */
    method SafeEditMessage(t: Transport, chatId: int, messageId: int, text: string, options: Options := NO_OPTIONS)
      returns (reply: Reply, calls: seq<Call>)
      requires Valid()
      modifies this
      ensures Valid()
      ensures var e := EditEffect(EditKey(chatId, messageId) in old(pendingEdits), chatId, messageId, text, options, t);
              && reply == e.reply && calls == e.calls
              && messageCache == ApplyCache(old(messageCache), chatId, e.cached)
      ensures pendingEdits == old(pendingEdits)
    {
      var editKey := EditKey(chatId, messageId);
      if editKey in pendingEdits {
        return Skipped, [];
      }
      pendingEdits := pendingEdits + {editKey};
      var body := Truncate(text);
      calls := [EditCall(chatId, messageId, body, options)];
      match t.first {
        case Ok(id) =>
          reply := Done(id);
        case Err(msg) =>
          if IsEditError(msg) {
            calls := calls + [SendCall(chatId, body, options)];
            match t.second {
              case Ok(id) =>
                CacheSetDistinct(messageCache, chatId, id);
                messageCache := CacheSet(messageCache, chatId, id);
                reply := Done(id);
              case Err(fallbackMsg) =>
                reply := Thrown(fallbackMsg);
            }
          } else {
            reply := Thrown(msg);
          }
      }
      pendingEdits := pendingEdits - {editKey};
    }

    /** `safeSendMessage`: one send, and one retry after a transient failure. */
    method SafeSendMessage(t: Transport, chatId: int, text: string, options: Options := NO_OPTIONS)
      returns (reply: Reply, calls: seq<Call>)
      requires Valid()
      modifies this
      ensures Valid()
      ensures var e := SendEffect(chatId, text, options, t);
              && reply == e.reply && calls == e.calls
              && messageCache == ApplyCache(old(messageCache), chatId, e.cached)
      ensures pendingEdits == old(pendingEdits)
    {
      var body := Truncate(text);
      calls := [SendCall(chatId, body, options)];
      match t.first {
        case Ok(id) =>
          CacheSetDistinct(messageCache, chatId, id);
          messageCache := CacheSet(messageCache, chatId, id);
          reply := Done(id);
        case Err(msg) =>
          if IsTransient(msg) {
            calls := calls + [SendCall(chatId, body, options)];
            match t.second {
              case Ok(id) =>
                CacheSetDistinct(messageCache, chatId, id);
                messageCache := CacheSet(messageCache, chatId, id);
                reply := Done(id);
              case Err(retryMsg) =>
                reply := Thrown(retryMsg);
            }
          } else {
            reply := Thrown(msg);
          }
      }
    }

    /** `goToMainMenu`. */
    method GoToMainMenu(t: Transport, chatId: int, messageId: int := 0) returns (reply: Reply, calls: seq<Call>)
      requires Valid()
      modifies this
      ensures Valid()
      ensures var e := ShowEffect(EditKey(chatId, messageId) in old(pendingEdits), chatId, messageId, WELCOME_TEXT, Markdown(Some(MAIN_MENU)), t);
              && reply == e.reply && calls == e.calls
              && messageCache == ApplyCache(old(messageCache), chatId, e.cached)
      ensures pendingEdits == old(pendingEdits)
    {
      if messageId != 0 {
        reply, calls := SafeEditMessage(t, chatId, messageId, WELCOME_TEXT, Markdown(Some(MAIN_MENU)));
      } else {
        reply, calls := SafeSendMessage(t, chatId, WELCOME_TEXT, Markdown(Some(MAIN_MENU)));
      }
    }

    /** `goToShop`. */
    method GoToShop(t: Transport, chatId: int, messageId: int := 0) returns (reply: Reply, calls: seq<Call>)
      requires Valid()
      modifies this
      ensures Valid()
      ensures var e := ShowEffect(EditKey(chatId, messageId) in old(pendingEdits), chatId, messageId, SHOP_TEXT, Markdown(None), t);
              && reply == e.reply && calls == e.calls
              && messageCache == ApplyCache(old(messageCache), chatId, e.cached)
      ensures pendingEdits == old(pendingEdits)
    {
      if messageId != 0 {
        reply, calls := SafeEditMessage(t, chatId, messageId, SHOP_TEXT, Markdown(None));
      } else {
        reply, calls := SafeSendMessage(t, chatId, SHOP_TEXT, Markdown(None));
      }
    }

    /** `showError`: the back keyboard chosen by `backButton`. */
    method ShowError(t: Transport, chatId: int, messageId: int, errorText: string, backButton: string := "main_menu")
      returns (reply: Reply, calls: seq<Call>)
      requires Valid()
      modifies this
      ensures Valid()
      ensures var e := ShowEffect(EditKey(chatId, messageId) in old(pendingEdits), chatId, messageId, errorText,
                                  Markdown(Some(BackOptions(backButton))), t);
              && reply == e.reply && calls == e.calls
              && messageCache == ApplyCache(old(messageCache), chatId, e.cached)
      ensures pendingEdits == old(pendingEdits)
    {
      var options := BackOptions(backButton);
      if messageId != 0 {
        reply, calls := SafeEditMessage(t, chatId, messageId, errorText, Markdown(Some(options)));
      } else {
        reply, calls := SafeSendMessage(t, chatId, errorText, Markdown(Some(options)));
      }
    }

    /** `showLoading`: no options at all. */
    method ShowLoading(t: Transport, chatId: int, messageId: int, loadingText: string := LOADING_TEXT)
      returns (reply: Reply, calls: seq<Call>)
      requires Valid()
      modifies this
      ensures Valid()
      ensures var e := ShowEffect(EditKey(chatId, messageId) in old(pendingEdits), chatId, messageId, loadingText, NO_OPTIONS, t);
              && reply == e.reply && calls == e.calls
              && messageCache == ApplyCache(old(messageCache), chatId, e.cached)
      ensures pendingEdits == old(pendingEdits)
    {
      if messageId != 0 {
        reply, calls := SafeEditMessage(t, chatId, messageId, loadingText);
      } else {
        reply, calls := SafeSendMessage(t, chatId, loadingText);
      }
    }

    /** `cleanupPendingEdits`: drops every pending key; a cache of more than
        100 entries is rebuilt from its 50 most recently inserted ones. */
    method CleanupPendingEdits()
      requires Valid()
      modifies this
      ensures Valid()
      ensures pendingEdits == {}
      ensures messageCache == if |old(messageCache)| > CACHE_LIMIT
                              then old(messageCache)[|old(messageCache)| - CACHE_KEEP..]
                              else old(messageCache)
    {
      pendingEdits := {};
      if |messageCache| > CACHE_LIMIT {
        var entries := messageCache;
        messageCache := [];
        var kept := entries[|entries| - CACHE_KEEP..];
        var i := 0;
        while i < |kept|
          invariant 0 <= i <= |kept|
          invariant messageCache == kept[..i]
          invariant DistinctKeys(messageCache)
          invariant pendingEdits == {}
        {
          assert kept[i].0 !in Keys(messageCache) by {
            forall j | 0 <= j < i ensures Keys(messageCache)[j] != kept[i].0 {
              assert Keys(messageCache)[j] == kept[j].0;
            }
          }
          CacheSetNew(messageCache, kept[i].0, kept[i].1);
          CacheSetDistinct(messageCache, kept[i].0, kept[i].1);
          messageCache := CacheSet(messageCache, kept[i].0, kept[i].1);
          assert kept[..i + 1] == kept[..i] + [kept[i]];
          i := i + 1;
        }
        assert kept[..|kept|] == kept;
      }
    }
  }

  /** A lookup finds exactly the cached chats, and what it finds is an entry
      of the cache. */
  lemma {:induction false} CacheGetIn(cache: seq<(int, int)>, chatId: int)
    ensures CacheGet(cache, chatId).Some? <==> chatId in Keys(cache)
    ensures CacheGet(cache, chatId).Some? ==> (chatId, CacheGet(cache, chatId).value) in cache
  {
    if cache != [] {
      assert Keys(cache) == [cache[0].0] + Keys(cache[1..]);
      if cache[0].0 != chatId {
        CacheGetIn(cache[1..], chatId);
      }
    }
  }

  /** With distinct keys, a lookup returns the id exactly when the cache
      pairs it with the chat. */
  lemma {:induction false} CacheGetFinds(cache: seq<(int, int)>, chatId: int, messageId: int)
    requires DistinctKeys(cache)
    ensures CacheGet(cache, chatId) == Some(messageId) <==> (chatId, messageId) in cache
  {
    if cache != [] {
      if cache[0].0 == chatId {
        if (chatId, messageId) in cache {
          var k :| 0 <= k < |cache| && cache[k] == (chatId, messageId);
          assert k == 0;
        }
      } else {
        assert DistinctKeys(cache[1..]);
        CacheGetFinds(cache[1..], chatId, messageId);
        assert (chatId, messageId) in cache <==> (chatId, messageId) in cache[1..] by {
          assert cache == [cache[0]] + cache[1..];
        }
      }
    }
  }

  lemma CacheLookup(cache: seq<(int, int)>, chatId: int)
    ensures DistinctKeys(cache) ==> forall v :: CacheGet(cache, chatId) == Some(v) <==> (chatId, v) in cache
  {
    if DistinctKeys(cache) {
      forall v ensures CacheGet(cache, chatId) == Some(v) <==> (chatId, v) in cache {
        CacheGetFinds(cache, chatId, v);
      }
    }
  }
}
