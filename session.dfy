/** The session store: the active chat log, the archive of named past chats,
    the selected archive index, and the conversation memory that mirrors the
    log.

    A chat log is a heap object (`Chat`), because main.py shares list
    objects between the active log and the archive: loading an archived chat
    makes the active log the very list held by the archive entry, so a later
    message grows that entry too. Archiving copies, and clearing rebinds the
    log to a fresh list.

    The two JSON files are the ghost fields `diskChat` and `diskArchive`. Each
    save overwrites one of them with the value of what was saved. */
module Session {
  import opened Wrappers
  import opened Scoring
  import opened Recommendation

  /** One exchange, as the message-handling block records it. */
  datatype Turn = Turn(user: string, emotion: string, churn: bool, churnPercent: real,
                       action: string, scores: seq<LabelScore>)

  /** An archive entry as a value, which is also what the archive file holds. */
  datatype SavedEntry = SavedEntry(name: string, chat: seq<Turn>)

  /** A message of the conversation memory. */
  datatype Message = UserMessage(text: string) | AiMessage(text: string)

  const EmotionPrefix: string := "Detected Emotion: "

  // ---------------------------------------------------------------------------
  // The turn built for one user message
  // ---------------------------------------------------------------------------

  /** The turn recorded for `userInput`, given the classifier's answer and the
      generator's output. */
  function MakeTurn(userInput: string, classifierResult: seq<LabelScore>, generated: string): (t: Turn)
    requires |classifierResult| > 0
    ensures t.user == userInput && t.scores == classifierResult
    ensures t.emotion == classifierResult[FirstMax(classifierResult)].emotion
    ensures t.churn <==> IsNegative(classifierResult[FirstMax(classifierResult)].emotion)
    ensures t.churnPercent == 100.0 * NegativeMass(classifierResult)
    ensures t.action == RecommendAction(t.churn, t.emotion, userInput, generated)
    ensures '\n' !in t.action && (t.action == [] || !IsSpace(t.action[0]))
  {
    var detected := DetectEmotion(classifierResult);
    DetectEmotionLabel(classifierResult, FirstMax(classifierResult));
    var emotion := detected.0;
    var fullScores := detected.1;
    var churn := PredictChurn(userInput, emotion);
    var churnPercent := ChurnPercent(fullScores);
    var action := RecommendAction(churn, emotion, userInput, generated);
    Turn(userInput, emotion, churn, churnPercent, action, fullScores)
  }

  // ---------------------------------------------------------------------------
  // The conversation memory
  // ---------------------------------------------------------------------------

  /** The memory that mirrors `log`: per turn, the user's text and then the
      AI note naming the detected emotion. */
  function MemoryOf(log: seq<Turn>): seq<Message>
  {
    if log == [] then []
    else MemoryOf(log[..|log| - 1])
         + [UserMessage(log[|log| - 1].user), AiMessage(EmotionPrefix + log[|log| - 1].emotion)]
  }

  /** The memory holds two messages per turn. */
  lemma {:induction false} MemoryOfLength(log: seq<Turn>)
    ensures |MemoryOf(log)| == 2 * |log|
  {
    if log != [] {
      MemoryOfLength(log[..|log| - 1]);
    }
  }

  /** Messages alternate: turn `k` gives the user message at `2k` and the
      emotion note at `2k + 1`. */
  lemma {:induction false} MemoryOfAt(log: seq<Turn>, k: int)
    requires 0 <= k < |log|
    ensures |MemoryOf(log)| == 2 * |log|
    ensures MemoryOf(log)[2 * k] == UserMessage(log[k].user)
    ensures MemoryOf(log)[2 * k + 1] == AiMessage(EmotionPrefix + log[k].emotion)
  {
    var init := log[..|log| - 1];
    MemoryOfLength(log);
    MemoryOfLength(init);
    if k < |log| - 1 {
      MemoryOfAt(init, k);
    }
  }

  /** Appending a turn appends its two messages. */
  lemma MemoryOfAppend(log: seq<Turn>, t: Turn)
    ensures MemoryOf(log + [t]) == MemoryOf(log) + [UserMessage(t.user), AiMessage(EmotionPrefix + t.emotion)]
  {
    assert (log + [t])[..|log|] == log;
  }

  // ---------------------------------------------------------------------------
  // Chats and the archive
  // ---------------------------------------------------------------------------

  /** A chat log: a list object that may be shared. */
  class Chat {
    var turns: seq<Turn>

    constructor (turns: seq<Turn>)
      ensures this.turns == turns
    {
      this.turns := turns;
    }
  }

  /** An archive entry: `{"name": ..., "chat": <list object>}`. */
  datatype Archived = Archived(name: string, chat: Chat)

  /** No two archive entries share a chat object. */
  predicate DistinctChats(entries: seq<Archived>)
  {
    forall i, j :: 0 <= i < j < |entries| ==> entries[i].chat != entries[j].chat
  }

  /** The value of the archive: what `json.dump` would write for it. */
  function Snapshot(entries: seq<Archived>): (s: seq<SavedEntry>)
    reads set e | e in entries :: e.chat
    ensures |s| == |entries|
    ensures forall i :: 0 <= i < |entries| ==> s[i] == SavedEntry(entries[i].name, entries[i].chat.turns)
  {
    if entries == [] then []
    else
      var last := entries[|entries| - 1];
      Snapshot(entries[..|entries| - 1]) + [SavedEntry(last.name, last.chat.turns)]
  }

  /** Appending an entry appends its value. */
  lemma SnapshotAppend(entries: seq<Archived>, e: Archived)
    ensures Snapshot(entries + [e]) == Snapshot(entries) + [SavedEntry(e.name, e.chat.turns)]
  {
  }

  /** The entry names, as the sidebar lists them. */
  function Names(entries: seq<Archived>): (names: seq<string>)
    ensures |names| == |entries|
    ensures forall i :: 0 <= i < |entries| ==> names[i] == entries[i].name
  {
    seq(|entries|, i requires 0 <= i < |entries| => entries[i].name)
  }

  /** Appending an entry whose chat object is new to the archive keeps the
      chat objects distinct. */
  lemma DistinctChatsAppend(entries: seq<Archived>, e: Archived)
    requires DistinctChats(entries)
    requires forall i :: 0 <= i < |entries| ==> entries[i].chat != e.chat
    ensures DistinctChats(entries + [e])
  {
  }

  /** Removing one entry keeps the chat objects distinct. */
  lemma DistinctChatsRemove(entries: seq<Archived>, index: int)
    requires DistinctChats(entries) && 0 <= index < |entries|
    ensures DistinctChats(entries[..index] + entries[index + 1..])
  {
    var rest := entries[..index] + entries[index + 1..];
    forall i, j | 0 <= i < j < |rest| ensures rest[i].chat != rest[j].chat {
      var i' := if i < index then i else i + 1;
      var j' := if j < index then j else j + 1;
      assert rest[i] == entries[i'] && rest[j] == entries[j'];
    }
  }

  /** `load_json(ARCHIVE_FILE)`: one fresh list object per stored chat. */
  method LoadArchive(stored: seq<SavedEntry>) returns (entries: seq<Archived>)
    ensures DistinctChats(entries)
    ensures forall i :: 0 <= i < |entries| ==> fresh(entries[i].chat)
    ensures Snapshot(entries) == stored
  {
    entries := [];
    var i := 0;
    while i < |stored|
      invariant 0 <= i <= |stored|
      invariant |entries| == i
      invariant DistinctChats(entries)
      invariant forall k :: 0 <= k < i ==> fresh(entries[k].chat)
      invariant forall k :: 0 <= k < i ==> SavedEntry(entries[k].name, entries[k].chat.turns) == stored[k]
    {
      var chat := new Chat(stored[i].chat);
      var entry := Archived(stored[i].name, chat);
      DistinctChatsAppend(entries, entry);
      entries := entries + [entry];
      i := i + 1;
    }
  }

  // ---------------------------------------------------------------------------
  // The selection rule of the sidebar
  // ---------------------------------------------------------------------------

  /** `min(stored or 0, n - 1)`: the index the select box starts from. */
  function ClampSelection(stored: Option<int>, n: int): (i: int)
    requires n > 0
    ensures i <= n - 1
    ensures stored.None? ==> i == 0
    ensures stored.Some? && 0 <= stored.value < n ==> i == stored.value
    ensures (stored.None? || stored.value >= 0) ==> 0 <= i
  {
    var start := if stored.None? then 0 else stored.value;
    if start < n - 1 then start else n - 1
  }

  /** The first position of `name` in `names` (`list.index`). */
  function IndexOf(names: seq<string>, name: string): (k: nat)
    requires name in names
    ensures k < |names| && names[k] == name
    ensures forall j :: 0 <= j < k ==> names[j] != name
  {
    if names[0] == name then 0 else 1 + IndexOf(names[1..], name)
  }

  /** The index shown by the select box: the user's pick, or else the clamped
      stored selection. */
  function ShownIndex(n: int, stored: Option<int>, picked: Option<nat>): (k: int)
    requires n > 0
    ensures picked.Some? ==> k == picked.value
    ensures picked.None? && (stored.Some? ==> stored.value >= 0) ==> 0 <= k < n
    ensures picked.None? && stored.Some? && 0 <= stored.value < n ==> k == stored.value
  {
    if picked.Some? then picked.value else ClampSelection(stored, n)
  }

  /** The selection stored back: the first entry bearing the shown entry's name. */
  function ResolveSelection(names: seq<string>, stored: Option<int>, picked: Option<nat>): (k: nat)
    requires |names| > 0
    requires stored.Some? ==> stored.value >= 0
    requires picked.Some? ==> picked.value < |names|
    ensures var shown := ShownIndex(|names|, stored, picked);
            && 0 <= shown < |names|
            && k <= shown
            && names[k] == names[shown]
            && forall j :: 0 <= j < k ==> names[j] != names[shown]
  {
    var shown := ShownIndex(|names|, stored, picked);
    IndexOf(names, names[shown])
  }

  /** With two chats of the same name, picking the second selects the first. */
  lemma DuplicateNameSelectsFirst(name: string)
    ensures ResolveSelection([name, name], None, Some(1)) == 0
  {
  }

  // ---------------------------------------------------------------------------
  // The session
  // ---------------------------------------------------------------------------

  class Session {
    var chatLog: Chat
    var archived: seq<Archived>
    var selected: Option<int>
    var memory: seq<Message>
    /** The content of the chat history file. */
    ghost var diskChat: seq<Turn>
    /** The content of the archive file. */
    ghost var diskArchive: seq<SavedEntry>

    ghost predicate Valid()
      reads this, chatLog
    {
      && DistinctChats(archived)
      && (selected.Some? ==> 0 <= selected.value < |archived|)
      && memory == MemoryOf(chatLog.turns)
    }

    /** The archive as a value. */
    function ArchiveValue(): (s: seq<SavedEntry>)
      reads this`archived, set e | e in archived :: e.chat
      ensures |s| == |archived|
    {
      Snapshot(archived)
    }

    /** Start-up: an empty log, the archive read from its file (`[]` when the
        file is missing), no selection. The chat history file keeps whatever
        it held; it is never read. */
    constructor (stored: seq<SavedEntry>, ghost chatFile: seq<Turn>)
      ensures Valid()
      ensures fresh(chatLog) && chatLog.turns == []
      ensures forall i :: 0 <= i < |archived| ==> fresh(archived[i].chat)
      ensures ArchiveValue() == stored && selected == None && memory == []
      ensures diskArchive == stored && diskChat == chatFile
    {
      var entries := LoadArchive(stored);
      chatLog := new Chat([]);
      archived := entries;
      selected := None;
      diskChat := chatFile;
      diskArchive := stored;
      new;
      assert Snapshot(entries) == stored;
      RestoreMemory(chatLog.turns);
    }

    /** `restore_memory`: clear the memory, then add two messages per turn. */
    method RestoreMemory(log: seq<Turn>)
      modifies this`memory
      ensures memory == MemoryOf(log)
    {
      memory := [];
      var i := 0;
      while i < |log|
        invariant 0 <= i <= |log|
        invariant memory == MemoryOf(log[..i])
      {
        assert log[..i + 1][..i] == log[..i];
        memory := memory + [UserMessage(log[i].user), AiMessage(EmotionPrefix + log[i].emotion)];
        i := i + 1;
      }
      assert log[..i] == log;
    }

    /** `update_memory`: add the user's text and the emotion note. */
    method UpdateMemory(userInput: string, emotion: string)
      modifies this`memory
      ensures memory == old(memory) + [UserMessage(userInput), AiMessage(EmotionPrefix + emotion)]
    {
      memory := memory + [UserMessage(userInput), AiMessage(EmotionPrefix + emotion)];
    }

    /** The message-handling block: an empty input does nothing; otherwise the
        turn is appended to the log object and the chat file is rewritten. An
        archive entry that shares the log object grows with it, while the
        archive file stays as it was. */
    method SendMessage(userInput: string, classifierResult: seq<LabelScore>, generated: string)
      requires Valid()
      requires userInput != [] ==> |classifierResult| > 0
      modifies this, chatLog
      ensures Valid()
      ensures chatLog == old(chatLog) && archived == old(archived) && selected == old(selected)
      ensures diskArchive == old(diskArchive)
      ensures userInput == [] ==>
                chatLog.turns == old(chatLog.turns) && memory == old(memory) && diskChat == old(diskChat)
      ensures userInput != [] ==>
                && chatLog.turns == old(chatLog.turns) + [MakeTurn(userInput, classifierResult, generated)]
                && memory == old(memory) + [UserMessage(userInput),
                                            AiMessage(EmotionPrefix + chatLog.turns[|chatLog.turns| - 1].emotion)]
                && diskChat == chatLog.turns
      ensures forall i :: 0 <= i < |archived| ==>
                ArchiveValue()[i] == if archived[i].chat == chatLog
                                     then SavedEntry(archived[i].name, chatLog.turns)
                                     else old(ArchiveValue()[i])
    {
      if userInput != [] {
        var turn := MakeTurn(userInput, classifierResult, generated);
        RecordTurn(turn);
      }
    }

    /** The recording half of the message-handling block: the memory gets the
        turn's two messages, the turn is appended to the log object and the
        chat file is rewritten. */
    method RecordTurn(turn: Turn)
      requires Valid()
      modifies this`memory, this`diskChat, chatLog`turns
      ensures Valid()
      ensures chatLog.turns == old(chatLog.turns) + [turn]
      ensures memory == old(memory) + [UserMessage(turn.user), AiMessage(EmotionPrefix + turn.emotion)]
      ensures diskChat == chatLog.turns
      ensures forall i :: 0 <= i < |archived| ==>
                ArchiveValue()[i] == if archived[i].chat == chatLog
                                     then SavedEntry(archived[i].name, chatLog.turns)
                                     else old(ArchiveValue()[i])
    {
      UpdateMemory(turn.user, turn.emotion);
      MemoryOfAppend(chatLog.turns, turn);
      chatLog.turns := chatLog.turns + [turn];
      diskChat := chatLog.turns;
    }

    /** The archiving step of `new_chat`: a copy of the non-empty log is
        appended under `chatName` and the archive file rewritten. */
    method ArchiveLog(chatName: string)
      requires Valid() && chatLog.turns != []
      modifies this`archived, this`diskArchive
      ensures Valid()
      ensures |archived| == old(|archived|) + 1
      ensures archived[..old(|archived|)] == old(archived)
      ensures fresh(archived[old(|archived|)].chat)
      ensures ArchiveValue() == old(ArchiveValue()) + [SavedEntry(chatName, chatLog.turns)]
      ensures diskArchive == ArchiveValue()
    {
      ghost var before := Snapshot(archived);
      var entries := archived;
      var copy := new Chat(chatLog.turns);
      var entry := Archived(chatName, copy);
      ghost var after := before + [SavedEntry(chatName, chatLog.turns)];
      assert Snapshot(entries + [entry]) == after by {
        assert Snapshot(entries) == before;
        SnapshotAppend(entries, entry);
      }
      DistinctChatsAppend(entries, entry);
      archived := entries + [entry];
      assert archived[..|entries|] == entries;
      diskArchive := after;
    }

    /** The clearing step of `new_chat`: the log is rebound to a fresh empty
        list, the chat file rewritten, the memory rebuilt (to nothing) and the
        selection cleared. */
    method ClearLog()
      requires Valid()
      modifies this`chatLog, this`diskChat, this`memory, this`selected
      ensures Valid()
      ensures fresh(chatLog) && chatLog.turns == [] && diskChat == [] && memory == []
      ensures selected == None
      ensures archived == old(archived) && diskArchive == old(diskArchive)
      ensures ArchiveValue() == old(ArchiveValue())
    {
      chatLog := new Chat([]);
      diskChat := chatLog.turns;
      RestoreMemory(chatLog.turns);
      selected := None;
    }

    /** `new_chat`: a non-empty log is archived as a copy under `chatName` and
        the archive file rewritten; then the log becomes a fresh empty list,
        the chat file is rewritten, the memory emptied and the selection
        cleared. */
    method NewChat(chatName: string)
      requires Valid()
      modifies this
      ensures Valid()
      ensures fresh(chatLog) && chatLog.turns == [] && diskChat == []
      ensures memory == [] && selected == None
      ensures old(chatLog.turns) != [] ==>
                && |archived| == old(|archived|) + 1
                && archived[..old(|archived|)] == old(archived)
                && fresh(archived[old(|archived|)].chat)
                && ArchiveValue() == old(ArchiveValue()) + [SavedEntry(chatName, old(chatLog.turns))]
                && diskArchive == ArchiveValue()
      ensures old(chatLog.turns) == [] ==>
                archived == old(archived) && diskArchive == old(diskArchive)
    {
      if chatLog.turns != [] {
        ArchiveLog(chatName);
      }
      ClearLog();
    }

    /** `delete_all_history`: archive and log emptied, both files rewritten
        with `[]`, memory emptied, selection cleared. */
    method DeleteAllHistory()
      requires Valid()
      modifies this
      ensures Valid()
      ensures archived == [] && diskArchive == []
      ensures fresh(chatLog) && chatLog.turns == [] && diskChat == []
      ensures memory == [] && selected == None
    {
      archived := [];
      chatLog := new Chat([]);
      diskArchive := Snapshot(archived);
      diskChat := chatLog.turns;
      RestoreMemory(chatLog.turns);
      selected := None;
    }

    /** `load_archived_chat`: out of range does nothing; in range the log
        becomes the archive entry's own list object (not a copy), the chat
        file is rewritten and the memory rebuilt from it. */
    method LoadArchivedChat(index: int)
      requires Valid()
      modifies this`chatLog, this`diskChat, this`memory
      ensures Valid()
      ensures archived == old(archived) && selected == old(selected) && diskArchive == old(diskArchive)
      ensures ArchiveValue() == old(ArchiveValue())
      ensures !(0 <= index < |archived|) ==>
                chatLog == old(chatLog) && memory == old(memory) && diskChat == old(diskChat)
      ensures 0 <= index < |archived| ==>
                && chatLog == archived[index].chat
                && diskChat == chatLog.turns == ArchiveValue()[index].chat
                && |memory| == 2 * |chatLog.turns|
    {
      if 0 <= index < |archived| {
        chatLog := archived[index].chat;
        diskChat := chatLog.turns;
        RestoreMemory(chatLog.turns);
        MemoryOfLength(chatLog.turns);
      }
    }

    /** `delete_archived_chat`: out of range does nothing; in range the entry
        is removed, the archive file rewritten and the selection cleared. The
        log and its file are left alone. */
    method DeleteArchivedChat(index: int)
      requires Valid()
      modifies this`archived, this`diskArchive, this`selected
      ensures Valid()
      ensures chatLog == old(chatLog) && chatLog.turns == old(chatLog.turns) && diskChat == old(diskChat)
      ensures !(0 <= index < old(|archived|)) ==>
                archived == old(archived) && diskArchive == old(diskArchive) && selected == old(selected)
      ensures 0 <= index < old(|archived|) ==>
                && archived == old(archived[..index] + archived[index + 1..])
                && ArchiveValue() == old(ArchiveValue()[..index] + ArchiveValue()[index + 1..])
                && diskArchive == ArchiveValue()
                && selected == None
    {
      if 0 <= index < |archived| {
        DistinctChatsRemove(archived, index);
        archived := archived[..index] + archived[index + 1..];
        diskArchive := Snapshot(archived);
        selected := None;
      }
    }

    /** The sidebar's selection step: with a non-empty archive the select box
        shows the clamped stored index unless the user picked another entry,
        and the stored selection becomes the first index of the shown name. */
    method SyncSelection(picked: Option<nat>)
      requires Valid()
      requires picked.Some? ==> picked.value < |archived|
      modifies this`selected
      ensures Valid()
      ensures archived == [] ==> selected == old(selected)
      ensures archived != [] ==>
                var shown := ShownIndex(|archived|, old(selected), picked);
                && selected.Some? && 0 <= shown < |archived|
                && selected.value <= shown
                && archived[selected.value].name == archived[shown].name
                && forall j :: 0 <= j < selected.value ==> archived[j].name != archived[shown].name
    {
      if archived != [] {
        var options := Names(archived);
        selected := Some(ResolveSelection(options, selected, picked));
      }
    }
  }

  // ---------------------------------------------------------------------------
  // Scenarios over the session
  // ---------------------------------------------------------------------------

  /** A fresh session after two messages: a log of exactly the two turns
      `t1` and `t2` recorded for them, and an empty archive. */
  method TwoTurnSession(m1: string, m2: string, first: seq<LabelScore>, second: seq<LabelScore>,
                        g1: string, g2: string, ghost t1: Turn, ghost t2: Turn)
    returns (s: Session)
    requires m1 != [] && m2 != [] && |first| > 0 && |second| > 0
    requires t1 == MakeTurn(m1, first, g1) && t2 == MakeTurn(m2, second, g2)
    ensures fresh(s) && s.Valid() && s.archived == []
    ensures s.chatLog.turns == [t1, t2]
  {
    s := new Session([], []);
    s.SendMessage(m1, first, g1);
    assert s.chatLog.turns == [t1];
    s.SendMessage(m2, second, g2);
  }

  /** Two messages, `new_chat(name)`, then `new_chat(other)` on the empty log:
      one archived chat under `name` holding exactly the two turns `t1` and
      `t2` recorded for the messages, in order, and an empty log. */
  method NewChatTwiceScenario(m1: string, m2: string, name: string, other: string,
                              first: seq<LabelScore>, second: seq<LabelScore>, g1: string, g2: string,
                              ghost t1: Turn, ghost t2: Turn)
    returns (archive: seq<SavedEntry>, log: seq<Turn>)
    requires m1 != [] && m2 != [] && |first| > 0 && |second| > 0
    requires t1 == MakeTurn(m1, first, g1) && t2 == MakeTurn(m2, second, g2)
    ensures archive == [SavedEntry(name, [t1, t2])]
    ensures log == []
  {
    var s := TwoTurnSession(m1, m2, first, second, g1, g2, t1, t2);
    ghost var turns := s.chatLog.turns;
    s.NewChat(name);
    assert s.ArchiveValue() == [SavedEntry(name, turns)];
    s.NewChat(other);
    archive := s.ArchiveValue();
    log := s.chatLog.turns;
  }

  /** Loading entry `i` and then deleting it leaves the loaded log as it was. */
  method LoadThenDeleteScenario(stored: seq<SavedEntry>, i: int) returns (log: seq<Turn>, archive: seq<SavedEntry>)
    requires 0 <= i < |stored|
    ensures log == stored[i].chat
    ensures archive == stored[..i] + stored[i + 1..]
  {
    var s := new Session(stored, []);
    s.LoadArchivedChat(i);
    s.DeleteArchivedChat(i);
    log := s.chatLog.turns;
    archive := s.ArchiveValue();
  }

  /** Loading entry `i` and then sending a message grows entry `i` of the
      archive in memory, while the archive file still holds the old chat. */
  method LoadThenSendScenario(stored: seq<SavedEntry>, i: int, result: seq<LabelScore>, generated: string)
    returns (entry: SavedEntry, ghost onDisk: SavedEntry)
    requires 0 <= i < |stored| && |result| > 0
    ensures entry.name == stored[i].name
    ensures entry.chat == stored[i].chat + [MakeTurn("hi", result, generated)]
    ensures onDisk == stored[i]
  {
    var s := new Session(stored, []);
    s.LoadArchivedChat(i);
    s.SendMessage("hi", result, generated);
    entry := s.ArchiveValue()[i];
    onDisk := s.diskArchive[i];
  }
}
