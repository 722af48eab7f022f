/** The conversation history: the stored `conversations` list that a card or
    search-result click appends to, and the history page that shows it and
    can clear it. */
module History {
  import opened Wrappers

  /** One history entry; `date` is the click time, which the model takes as
      given. */
  datatype Conversation = Conversation(id: string, title: string, date: int)

  /** The stored list as the handlers read it: a stored list is read as it
      is, and nothing stored reads as the empty list. */
  function StoredOrEmpty(stored: Option<seq<Conversation>>): (conversations: seq<Conversation>)
    ensures stored.Some? ==> conversations == stored.value
    ensures stored.None? ==> conversations == []
  {
    match stored
    case Some(list) => list
    case None => []
  }

  /** The stored list after one `updateConversationHistory(entry)`: a list is
      stored, every earlier entry keeps its place, and the new entry is last. */
  function Appended(stored: Option<seq<Conversation>>, entry: Conversation): (after: Option<seq<Conversation>>)
    ensures after.Some?
    ensures var before := StoredOrEmpty(stored);
      && |after.value| == |before| + 1
      && after.value[..|before|] == before
      && after.value[|before|] == entry
  {
    var before := StoredOrEmpty(stored);
    assert (before + [entry])[..|before|] == before;
    Some(before + [entry])
  }

  /** The stored list after appending `entries` one at a time. */
  function AfterUpdates(stored: Option<seq<Conversation>>, entries: seq<Conversation>): Option<seq<Conversation>>
    decreases |entries|
  {
    if |entries| == 0 then stored
    else AfterUpdates(Appended(stored, entries[0]), entries[1..])
  }

  /** A run of appends gives the earlier list (empty when nothing was stored)
      followed by the new entries in click order. */
  lemma {:induction false} AfterUpdatesAppends(stored: Option<seq<Conversation>>, entries: seq<Conversation>)
    requires |entries| > 0
    ensures AfterUpdates(stored, entries) == Some(StoredOrEmpty(stored) + entries)
    decreases |entries|
  {
    var next := Appended(stored, entries[0]);
    if |entries| == 1 {
      assert StoredOrEmpty(stored) + [entries[0]] == StoredOrEmpty(stored) + entries;
    } else {
      AfterUpdatesAppends(next, entries[1..]);
      assert StoredOrEmpty(next) + entries[1..] == StoredOrEmpty(stored) + entries;
    }
  }

  /** The stored `conversations` value, shared by every page. */
  class ConversationStore {
    var stored: Option<seq<Conversation>>

    constructor (stored: Option<seq<Conversation>>)
      ensures this.stored == stored
    {
      this.stored := stored;
    }

    /** `updateConversationHistory(entry)`: read the stored list (empty when
        none), push the entry and store the list. */
    method UpdateConversationHistory(entry: Conversation)
      modifies this
      ensures stored == Appended(old(stored), entry)
    {
      var conversations: seq<Conversation> := [];
      if stored.Some? {
        conversations := stored.value;
      }
      conversations := conversations + [entry];
      stored := Some(conversations);
    }
  }

  /** The history page: the list it shows and the store it reads. */
  class HistoryPage {
    var conversations: seq<Conversation>
    const store: ConversationStore

    /** Mounting: the stored list is shown, or nothing when none is stored. */
    constructor (store: ConversationStore)
      ensures this.store == store
      ensures conversations == StoredOrEmpty(store.stored)
    {
      this.store := store;
      conversations := StoredOrEmpty(store.stored);
    }

    /** `clearHistory`: the stored list is removed and the page shows none. */
    method ClearHistory()
      modifies this, store
      ensures conversations == [] && store.stored == None
    {
      store.stored := None;
      conversations := [];
    }
  }

  /** After `clearHistory`, the next click stores a list holding only the
      new entry, and the page still shows an empty list until it is mounted
      again. */
  method ClearThenUpdate(page: HistoryPage, entry: Conversation)
    modifies page, page.store
    ensures page.store.stored == Some([entry])
    ensures page.conversations == []
  {
    page.ClearHistory();
    page.store.UpdateConversationHistory(entry);
    assert [] + [entry] == [entry];
  }
}
