/** src/components/KnowledgeBot.tsx: "The Oracle", a chat over the local knowledge base.
    The fuzzy search is the `search` oracle (index and query to ranked results); the
    clock is the `now` parameter, and the delayed reply is a call of its own. */
module KnowledgeBot {
  import opened Common
  import opened Model
  import opened Storage

  // ---------------------------------------------------------------------------
  // Teach keywords
  // ---------------------------------------------------------------------------

  /** What one part contributes: its trimmed, lower-cased text, unless that is empty. */
  function KeywordOf(part: string): seq<string> {
    var k := ToLower(Trim(part));
    if |k| > 0 then [k] else []
  }

  /** `.map(s => s.trim().toLowerCase()).filter(s => s.length > 0)` over the parts. */
  function CleanKeywords(parts: seq<string>): seq<string> {
    if parts == [] then [] else KeywordOf(parts[0]) + CleanKeywords(parts[1..])
  }

  /** `teachData.keywords.split(',')` followed by the clean-up. */
  function ParseKeywords(text: string): seq<string> {
    CleanKeywords(Split(text, ','))
  }

  predicate IsUpper(c: char) { 'A' <= c <= 'Z' }

  /** A keyword as the parser leaves it: not empty, no white space at either end, no
      comma and no upper-case letter. */
  predicate CleanKeyword(k: string) {
    k != [] && !IsSpace(k[0]) && !IsSpace(k[|k| - 1]) && ',' !in k &&
    forall i :: 0 <= i < |k| ==> !IsUpper(k[i])
  }

  lemma CleanPart(p: string)
    requires ',' !in p && ToLower(Trim(p)) != []
    ensures CleanKeyword(ToLower(Trim(p)))
  {
    TrimIsSlice(p);
    var t := Trim(p);
    var a, b :| 0 <= a <= b <= |p| && t == p[a..b];
    var k := ToLower(t);
    assert |k| == |t| > 0;
    forall i | 0 <= i < |k|
      ensures k[i] != ',' && !IsUpper(k[i])
    {
      assert t[i] == p[a + i];
      LowerCharKeeps(t[i]);
    }
    LowerCharKeeps(t[0]);
    LowerCharKeeps(t[|t| - 1]);
  }

  /** Lowering a letter makes no comma, no white space and no capital. */
  lemma LowerCharKeeps(c: char)
    ensures LowerChar(c) == ',' ==> c == ','
    ensures IsSpace(LowerChar(c)) ==> IsSpace(c)
    ensures !IsUpper(LowerChar(c))
  {
  }

  /** Comma-free parts give clean keywords, at most one per part. */
  lemma {:induction false} CleanKeywordsSound(parts: seq<string>)
    requires forall i :: 0 <= i < |parts| ==> ',' !in parts[i]
    ensures forall i :: 0 <= i < |CleanKeywords(parts)| ==> CleanKeyword(CleanKeywords(parts)[i])
    ensures |CleanKeywords(parts)| <= |parts|
  {
    if parts != [] {
      var rest := CleanKeywords(parts[1..]);
      assert forall i :: 0 <= i < |parts[1..]| ==> ',' !in parts[1..][i] by {
        forall i | 0 <= i < |parts[1..]| ensures ',' !in parts[1..][i] {
          assert parts[1..][i] == parts[i + 1];
        }
      }
      CleanKeywordsSound(parts[1..]);
      var head, all := KeywordOf(parts[0]), CleanKeywords(parts);
      assert all == head + rest;
      if head != [] {
        CleanPart(parts[0]);
      }
      forall i | 0 <= i < |all|
        ensures CleanKeyword(all[i])
      {
        if i < |head| { assert all[i] == head[0]; } else { assert all[i] == rest[i - |head|]; }
      }
    }
  }

  /** Blank parts give no keywords. */
  lemma {:induction false} CleanKeywordsOfBlanks(parts: seq<string>)
    requires forall i :: 0 <= i < |parts| ==> AllSpace(parts[i])
    ensures CleanKeywords(parts) == []
  {
    if parts != [] {
      assert AllSpace(parts[0]);
      assert forall i :: 0 <= i < |parts[1..]| ==> AllSpace(parts[1..][i]) by {
        forall i | 0 <= i < |parts[1..]| ensures AllSpace(parts[1..][i]) {
          assert parts[1..][i] == parts[i + 1];
        }
      }
      CleanKeywordsOfBlanks(parts[1..]);
    }
  }

  /** Every parsed keyword is clean, and there are at most as many keywords as
      comma-separated parts. */
  lemma KeywordsClean(text: string)
    ensures forall i :: 0 <= i < |ParseKeywords(text)| ==> CleanKeyword(ParseKeywords(text)[i])
    ensures |ParseKeywords(text)| <= Count(text, ',') + 1
  {
    CleanKeywordsSound(Split(text, ','));
  }

  /** The clean-up works part by part. */
  lemma {:induction false} CleanKeywordsAppend(p: seq<string>, q: seq<string>)
    ensures CleanKeywords(p + q) == CleanKeywords(p) + CleanKeywords(q)
  {
    if p != [] {
      assert (p + q)[0] == p[0] && (p + q)[1..] == p[1..] + q;
      CleanKeywordsAppend(p[1..], q);
    } else {
      assert p + q == q;
    }
  }

  /** A comma after a comma-free text splits off exactly that text. */
  lemma SplitAround(a: string, b: string)
    requires ',' !in a
    ensures Split(a + "," + b, ',') == Split(a, ',') + Split(b, ',')
  {
    assert a + "," + b == a + [','] + b;
    SplitPrefix(a, b, ',');
    SplitNoSep(a, ',');
  }

  /** The parser keeps the input's order: the keywords before a comma come first. */
  lemma KeywordsInOrder(a: string, b: string)
    requires ',' !in a
    ensures ParseKeywords(a + "," + b) == ParseKeywords(a) + ParseKeywords(b)
  {
    SplitAround(a, b);
    CleanKeywordsAppend(Split(a, ','), Split(b, ','));
  }

  /** Splitting a text of blanks and commas gives blank parts. */
  lemma {:induction false} SplitBlanks(text: string)
    requires forall i :: 0 <= i < |text| ==> IsSpace(text[i]) || text[i] == ','
    ensures forall i :: 0 <= i < |Split(text, ',')| ==> AllSpace(Split(text, ',')[i])
    decreases |text|
  {
    if text != [] {
      SplitBlanks(text[1..]);
    }
  }

  /** A blank or comma-only text gives no keywords. */
  lemma NoKeywordsFromBlanks(text: string)
    requires forall i :: 0 <= i < |text| ==> IsSpace(text[i]) || text[i] == ','
    ensures ParseKeywords(text) == []
  {
    SplitBlanks(text);
    CleanKeywordsOfBlanks(Split(text, ','));
  }

  // ---------------------------------------------------------------------------
  // Search
  // ---------------------------------------------------------------------------

  /** `findBestMatch`: nothing for a blank query (`query.trim()` is empty exactly when
      every character is white space, by `Trim`'s contract), otherwise the top search
      result if there is one. */
  function FindBestMatch(kb: seq<KnowledgeItem>, query: string,
                         search: (seq<KnowledgeItem>, string) -> seq<KnowledgeItem>): (r: Option<KnowledgeItem>)
    ensures r.None? <==> AllSpace(query) || search(kb, query) == []
    ensures r.Some? ==> r.value == search(kb, query)[0]
  {
    if AllSpace(query) then None
    else
      var results := search(kb, query);
      if |results| > 0 then Some(results[0]) else None
  }

  const Fallback := "Data not found in local index. \n\nEven with fuzzy search, I couldn't find a match. \n\nIf the concept is missing, use the 'Teach' button to add it."

  const Greeting := "Systems online. I am The Oracle. \n\nI am a deterministic offline engine equipped with Fuzzy Search. I can handle typos and partial queries.\n\nTry asking: 'Dijkstra algo' or 'quik sort time'."

  /** The bot's reply: the matched answer, or the fallback. */
  function ReplyText(kb: seq<KnowledgeItem>, query: string,
                     search: (seq<KnowledgeItem>, string) -> seq<KnowledgeItem>): (t: string)
    ensures FindBestMatch(kb, query, search).Some? ==> t == FindBestMatch(kb, query, search).value.answer
    ensures FindBestMatch(kb, query, search).None? ==> t == Fallback
  {
    var m := FindBestMatch(kb, query, search);
    if m.Some? then m.value.answer else Fallback
  }

  /** The bot's message for a query: id `Date.now() + 1`, the reply text, stamped now. */
  function ReplyMessage(kb: seq<KnowledgeItem>, query: string,
                        search: (seq<KnowledgeItem>, string) -> seq<KnowledgeItem>, now: int): ChatMessage {
    ChatMessage(IntString(now + 1), ReplyText(kb, query, search), Bot, now)
  }

  /** "Knowledge updated. I now know about: [k1, k2]." */
  function Confirmation(keywords: seq<string>): string {
    "Knowledge updated. I now know about: [" + Join(keywords, ", ") + "]."
  }

  datatype TeachForm = TeachForm(keywords: string, answer: string, category: Subject)

  const EmptyTeachForm := TeachForm("", "", ALGO)

  /** The guard `if (!teachData.keywords || !teachData.answer) return`. */
  predicate TeachAccepted(f: TeachForm) {
    f.keywords != "" && f.answer != ""
  }

  /** The taught item, with id `custom_<now>` and the parsed keywords. */
  function NewItem(f: TeachForm, now: int): KnowledgeItem
  {
    KnowledgeItem("custom_" + IntString(now), ParseKeywords(f.keywords), f.answer, SubjectCategory(f.category))
  }

  // ---------------------------------------------------------------------------
  // The chat
  // ---------------------------------------------------------------------------

  class Chat {
    var knowledge: seq<KnowledgeItem>
    var messages: seq<ChatMessage>
    var input: string
    var isTyping: bool
    var showTeachModal: bool
    var teachData: TeachForm
    /** The queries whose delayed replies are still due, oldest first. */
    var pending: seq<string>
    const store: Store

    /** The initial state and the mount effect, which loads the base and indexes it. */
    constructor (store: Store, now: int)
      ensures this.store == store && knowledge == GetKnowledgeBase(store.data)
      ensures messages == [ChatMessage("0", Greeting, Bot, now)]
      ensures input == "" && !isTyping && !showTeachModal && teachData == EmptyTeachForm && pending == []
    {
      this.store := store;
      knowledge := GetKnowledgeBase(store.data);
      messages := [ChatMessage("0", Greeting, Bot, now)];
      input := "";
      isTyping := false;
      showTeachModal := false;
      teachData := EmptyTeachForm;
      pending := [];
    }

    method SetInput(text: string)
      modifies this
      ensures knowledge == old(knowledge) && isTyping == old(isTyping) && showTeachModal == old(showTeachModal) && teachData == old(teachData)
      ensures input == text && messages == old(messages) && pending == old(pending)
    {
      input := text;
    }

    /** The "Teach" button opens the form, its close button shuts it. */
    method SetTeachModal(open: bool)
      modifies this
      ensures isTyping == old(isTyping)
      ensures showTeachModal == open && teachData == old(teachData) && messages == old(messages)
      ensures knowledge == old(knowledge) && input == old(input) && pending == old(pending)
    {
      showTeachModal := open;
    }

    /** `handleSend`: a blank input is ignored; otherwise the user's message is appended,
        the input cleared and the reply scheduled. */
    method HandleSend(now: int)
      modifies this
      ensures showTeachModal == old(showTeachModal) && teachData == old(teachData)
      ensures AllSpace(old(input)) ==>
        messages == old(messages) && input == old(input) && isTyping == old(isTyping) && pending == old(pending)
      ensures !AllSpace(old(input)) ==>
        messages == old(messages) + [ChatMessage(IntString(now), old(input), User, now)] &&
        input == "" && isTyping && pending == old(pending) + [old(input)]
      ensures knowledge == old(knowledge)
    {
      if Trim(input) == [] {
        return;
      }
      var userMsg := ChatMessage(IntString(now), input, User, now);
      messages := messages + [userMsg];
      input := "";
      isTyping := true;
      pending := pending + [userMsg.text];
    }

    /** The reply 600 ms later, for the oldest pending query. */
    method Reply(now: int, search: (seq<KnowledgeItem>, string) -> seq<KnowledgeItem>)
      requires pending != []
      modifies this
      ensures showTeachModal == old(showTeachModal) && teachData == old(teachData)
      ensures messages == old(messages) + [ReplyMessage(knowledge, old(pending)[0], search, now)]
      ensures !isTyping && pending == old(pending)[1..] && knowledge == old(knowledge) && input == old(input)
    {
      var reply := ReplyMessage(knowledge, pending[0], search, now);
      messages := messages + [reply];
      pending := pending[1..];
      isTyping := false;
    }

    method SetTeachData(f: TeachForm)
      modifies this
      ensures input == old(input) && isTyping == old(isTyping) && showTeachModal == old(showTeachModal) && pending == old(pending)
      ensures teachData == f && messages == old(messages) && knowledge == old(knowledge)
    {
      teachData := f;
    }

    /** `handleTeachSubmit`: without keywords or answer nothing happens; otherwise the item
        is upserted into the stored base, the base reloaded, the form reset and closed,
        and a confirmation listing the keywords appended. */
    method HandleTeachSubmit(now: int, stamp: string)
      requires store.Valid()
      modifies this, store
      ensures isTyping == old(isTyping) && (!TeachAccepted(old(teachData)) ==> showTeachModal == old(showTeachModal))
      ensures store.Valid()
      ensures !TeachAccepted(old(teachData)) ==>
        store.data == old(store.data) && knowledge == old(knowledge) && messages == old(messages) && teachData == old(teachData)
      ensures TeachAccepted(old(teachData)) ==>
        store.data == WithBackup(old(store.data)[KnowledgeKey := KnowledgeValue(Upsert(GetKnowledgeBase(old(store.data)), NewItem(old(teachData), now)))], store.loadedAt, stamp) &&
        knowledge == Upsert(GetKnowledgeBase(old(store.data)), NewItem(old(teachData), now)) &&
        messages == old(messages) + [ChatMessage(IntString(now), Confirmation(NewItem(old(teachData), now).keywords), Bot, now)] &&
        teachData == EmptyTeachForm && !showTeachModal
      ensures input == old(input) && pending == old(pending)
    {
      if TeachAccepted(teachData) {
        Teach(NewItem(teachData, now), now, stamp);
      }
    }

    /** The accepted branch of `handleTeachSubmit`. */
    method Teach(newItem: KnowledgeItem, now: int, stamp: string)
      requires store.Valid()
      modifies this, store
      ensures isTyping == old(isTyping)
      ensures store.Valid()
      ensures store.data == WithBackup(old(store.data)[KnowledgeKey := KnowledgeValue(Upsert(GetKnowledgeBase(old(store.data)), newItem))], store.loadedAt, stamp)
      ensures knowledge == Upsert(GetKnowledgeBase(old(store.data)), newItem)
      ensures messages == old(messages) + [ChatMessage(IntString(now), Confirmation(newItem.keywords), Bot, now)]
      ensures teachData == EmptyTeachForm && !showTeachModal
      ensures input == old(input) && pending == old(pending)
    {
      showTeachModal, teachData := false, EmptyTeachForm;
      messages := messages + [ChatMessage(IntString(now), Confirmation(newItem.keywords), Bot, now)];
      store.SaveKnowledgeItem(newItem, stamp);
      knowledge := GetKnowledgeBase(store.data);
    }
  }
}
