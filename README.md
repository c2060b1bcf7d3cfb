# Emotion Retention Assistant: session store and churn scoring in Dafny

This project models the core of the Emotion Retention Assistant, a Streamlit app in `main.py`. Each user message is classified by emotion. The app derives a churn-risk flag and a churn-risk percentage from the classifier's scores, asks a text generator how to respond, and records the exchange as a turn in the active chat log. A log can be archived under a name, loaded back and deleted. The log and the archive are each written to a JSON file.

The model has four modules:

- `Wrappers` (`wrappers.dfy`): the `Option` type used for the selected archive index.
- `Scoring` (`scoring.dfy`): pure functions.
  - `detect_emotion` is modelled as a stable descending sort followed by taking its head. The model proves the sort is sorted and a permutation of its input, and that its head is the first maximum of the input.
  - `predict_churn`, `calculate_churn_percent` and the colour band of the churn bar.
- `Recommendation` (`recommendation.dfy`): pure functions.
  - The prompt template.
  - The post-processing `output.replace(prompt, "").strip().split("\n")[0]`. Python's `str.replace` is modelled as its left-to-right, non-overlapping scan, and `str.strip` uses Python's exact whitespace set.
- `Session` (`session.dfy`): imperative code.
  - A `Session` class holds the active log, the archive, the selected index and the conversation memory.
  - Chat logs are heap objects (`Chat`), so sharing between the log and the archive is visible.
  - The two JSON files are the ghost fields `diskChat` and `diskArchive`. Every save overwrites one of them.
  - `Valid()` keeps three invariants: archive entries never share a chat object, the selection is `None` or in range, and the memory always equals `MemoryOf(log)`.

External inputs are parameters:

- the classifier's answer: a non-empty sequence of `(label, score)` pairs with `real` scores;
- the generator's output: a string;
- the archive file's content at start-up;
- the user's pick in the select box.

Some behaviour of `main.py` is easy to miss when reading it, and the model keeps it as written:

- **Loading does not copy.** `load_archived_chat` (`main.py:143`) makes the active log the archived entry's own list object, not a copy. After a load, a new message also grows that archive entry in memory, but the archive file is not rewritten. `LoadThenSendScenario` shows this. Archiving with `new_chat` does copy (`main.py:125`).
- **The chat file is never read.** Start-up always begins with an empty log (`main.py:109`). Only the archive file is loaded.
- **An empty classifier answer is not handled.** `detect_emotion` indexes `[0]`, so it needs a non-empty answer. It does not default to "no risk".
- **Write errors are not caught.** `save_json` has no error handling.
- **The percentage is not clamped.** `calculate_churn_percent` does not clamp to [0, 100]. The range is proved only when the scores are non-negative and sum to 1 (`ChurnPercentInRange`).

The selection rule in `main.py:168-173` maps a name back to its first index. With two archived chats of the same name (every chat is "Untitled Chat" by default), picking the second one selects the first (`DuplicateNameSelectsFirst`).

## Model

| member | source | states |
|---|---|---|
| `Scoring.Lower` | main.py:61 | the result has the input's length, and each character is the input's character lower-cased (A-Z to a-z, all else unchanged) |
| `Scoring.LowerOfNoUpper` | main.py:61 | a label without upper-case letters is unchanged by lower-casing |
| `Scoring.LowerIdempotent` | main.py:61 | lower-casing twice equals lower-casing once |
| `Scoring.FirstMax` | main.py:52-53 | returns the first position holding the highest score: no score is higher, and every earlier score is strictly lower |
| `Scoring.FirstMaxUnique` | main.py:52-53 | the first maximum is unique |
| `Scoring.Insert` | main.py:52 | inserting one entry adds exactly that entry (multiset) |
| `Scoring.InsertSorted` | main.py:52 | inserting into a list sorted highest-first keeps it sorted |
| `Scoring.SortDesc` | main.py:52 | `sorted(..., reverse=True)` yields a permutation of its input, sorted highest score first |
| `Scoring.SortHeadIsFirstMax` | main.py:52-53 | the head of the stable descending sort is the first maximum of the input, so ties go to the earliest entry |
| `Scoring.DetectEmotion` | main.py:50-53 | returns the label of a first-maximum entry, together with the classifier's list unsorted |
| `Scoring.DetectEmotionLabel` | main.py:50-53 | for any first-maximum position, the returned label is that entry's label |
| `Scoring.IsNegative` | main.py:60-61 | a label is negative iff its lower-cased form is anger, disgust, fear or sadness |
| `Scoring.PredictChurn` | main.py:59-61 | the flag holds iff the lower-cased emotion is anger, disgust, fear or sadness |
| `Scoring.PredictChurnCaseInsensitive` | main.py:59-61 | the flag ignores the message text and the case of the label |
| `Scoring.ChurnFlagFollowsTopLabel` | main.py:50-61 | the flag computed from the detected emotion holds iff the top-scoring label is negative |
| `Scoring.ChurnPercent` | main.py:63-66 | an empty score list gives 0 |
| `Scoring.NegativeEntries` | main.py:65 | the filter keeps exactly the entries with a negative label: each negative entry occurs in the result as many times as in the input, and no other entry occurs |
| `Scoring.NegativeMassIsFilteredSum` | main.py:65 | the negative sum equals the sum of the scores of the filtered entries, as the generator expression computes it |
| `Scoring.NoNegativeLabelNoRisk` | main.py:63-66 | with no negative label, the percentage is 0 |
| `Scoring.NegativeMassAppend` | main.py:65 | the negative sum over a concatenation is the sum of the two parts |
| `Scoring.NegativeMassBounds` | main.py:65 | with non-negative scores, the negative sum lies between 0 and the total |
| `Scoring.ChurnPercentInRange` | main.py:63-66 | scores that are non-negative and sum to 1 give a percentage in [0, 100] |
| `Scoring.NegativeMassCoversEntry` | main.py:65 | each negative entry contributes at least its own score |
| `Scoring.RiskFlagBoundsPercent` | main.py:50-66 | when the flag is raised, the percentage is at least 100 × the top score |
| `Scoring.AngerExampleLabels` | main.py:60-61 | "anger" is a negative label; "joy" and "neutral" are not |
| `Scoring.AngerIsNegative` | main.py:60-61 | "anger" is a negative label |
| `Scoring.JoyIsNotNegative` | main.py:60-61 | "joy" is not a negative label |
| `Scoring.NeutralIsNotNegative` | main.py:60-61 | "neutral" is not a negative label |
| `Scoring.AngerExampleFlag` | main.py:50-61 | the answer anger 0.6, joy 0.3, neutral 0.1 gives top label "anger" and a raised flag |
| `Scoring.AngerExamplePercent` | main.py:63-66 | the same answer gives 60 percent |
| `Scoring.ChurnBand` | main.py:99 | the band is red iff the percentage is ≥ 70, and green iff it is < 40 |
| `Scoring.NegativeMassOfThree` | main.py:65 | the negative sum of three entries adds the score of each negative one and nothing for the others |
| `Scoring.BandColour` | main.py:99 | the colour is red (`#FF5252`) iff the band is high, and green (`#66BB6A`) iff it is low |
| `Scoring.ChurnColour` | main.py:99 | the bar is red iff the percentage is ≥ 70, orange (`#FFA726`) iff it is in [40, 70), and green iff it is < 40 |
| `Scoring.ChurnBandMonotone` | main.py:99 | a higher percentage never gives a lower band |
| `Recommendation.BuildPrompt` | main.py:69-74 | the prompt's length is the sum of its parts; it starts with the fixed header, and the user's message follows the header |
| `Recommendation.PromptNonEmpty` | main.py:69-74 | the prompt is never empty |
| `Recommendation.RemoveAll` | main.py:76 | `replace(prompt, "")` never lengthens its input |
| `Recommendation.RemoveAllLeftmost` | main.py:76 | `replace` keeps the text before the leftmost occurrence of the prompt, drops that occurrence and continues right after it |
| `Recommendation.RemoveAllKeepsHead` | main.py:76 | without an occurrence at the front, `replace` keeps the first character and continues with the rest |
| `Recommendation.OccurrencesInTail` | main.py:76 | an occurrence after the first character is an occurrence in the rest, one position earlier, and stays the leftmost one |
| `Recommendation.RemoveAllWithoutOccurrence` | main.py:76 | without an occurrence of the prompt, `replace` leaves the text unchanged |
| `Recommendation.RemoveAllEchoed` | main.py:76 | an echoed prompt at the front is removed |
| `Recommendation.IsSpaceAscii` | main.py:76 | in the ASCII range, `strip()` removes exactly tab, newline, vertical tab, form feed, carriage return, the separators 0x1C-0x1F and the space; nothing above U+3000 is whitespace |
| `Recommendation.StripLeading` | main.py:76 | drops only whitespace, and the result does not start with whitespace |
| `Recommendation.StripTrailing` | main.py:76 | drops only whitespace, and the result does not end with whitespace |
| `Recommendation.Strip` | main.py:76 | `strip()` returns an infix with only whitespace around it and no whitespace at either end |
| `Recommendation.TrimmedBothEnds` | main.py:76 | dropping whitespace at the front and then at the back leaves an infix with only whitespace around it |
| `Recommendation.StripOfTrimmed` | main.py:76 | text without whitespace at either end is its own strip |
| `Recommendation.FirstLine` | main.py:76 | `split("\n")[0]` is a newline-free prefix that stops at the first newline, if any |
| `Recommendation.FirstLineOfSingleLine` | main.py:76 | text without a newline is its own first line |
| `Recommendation.Extract` | main.py:76 | with `rest` the stripped remainder after `replace`: the result is the part of `rest` before its first newline. It is a newline-free prefix of `rest`, followed in `rest` by a newline when shorter than `rest`, empty iff `rest` is empty, and it has no leading whitespace |
| `Recommendation.RecommendAction` | main.py:68-77 | the recommendation is the first line of the generator's output with the prompt removed and whitespace stripped: a newline-free prefix of that text, followed there by a newline when shorter, empty iff the text is empty, and without leading whitespace |
| `Recommendation.RecommendFromEcho` | main.py:68-77 | prompt echo plus a continuation gives the continuation's first stripped line |
| `Recommendation.RecommendFromBareEcho` | main.py:68-77 | a generator output equal to the prompt gives the empty recommendation |
| `Session.MakeTurn` | main.py:189-203 | the turn holds the user text and the unsorted scores. Its emotion is the first-maximum label, its flag is raised iff that label is negative, its percentage is 100 × the negative sum, and its action is the recommendation computed from that emotion and flag, the user text and the generator's output |
| `Session.MemoryOfLength` | main.py:43-47 | the rebuilt memory holds 2 × len(log) messages |
| `Session.MemoryOfAt` | main.py:43-47 | the rebuilt memory alternates: the user text of turn k, then "Detected Emotion: " + its emotion |
| `Session.MemoryOfAppend` | main.py:55-57 | appending a turn appends its two messages to the memory |
| `Session.Snapshot` | main.py:31-33 | the saved archive has one `{name, chat}` entry per archive entry, holding the entry's current turns |
| `Session.DistinctChatsAppend` | main.py:123-127 | appending an entry whose chat object is not in the archive keeps archive entries from sharing a chat object |
| `Session.SnapshotAppend` | main.py:123-127 | appending an entry appends its value to the saved archive |
| `Session.Names` | main.py:169 | the options list holds the names of the entries, in order |
| `Session.DistinctChatsRemove` | main.py:147-151 | deleting an entry keeps archive entries from sharing a chat object |
| `Session.LoadArchive` | main.py:35-40 | loading the archive file gives fresh, unshared chat objects whose value is the file content |
| `Session.ClampSelection` | main.py:170-171 | `min(sel or 0, n - 1)` is at most n - 1; it is 0 for `None`, and equals any stored index already in range |
| `Session.ShownIndex` | main.py:170-172 | the select box shows the user's pick when there is one; otherwise it shows a valid index, and it shows the stored index when that is in range |
| `Session.IndexOf` | main.py:173 | `options.index(name)` is the first position of `name` |
| `Session.ResolveSelection` | main.py:168-173 | the stored selection is the first index whose name equals the shown entry's name, and it is ≤ the shown index |
| `Session.DuplicateNameSelectsFirst` | main.py:169-173 | with two chats of the same name, picking the second selects the first |
| `Session.Chat.constructor` | main.py:125 | a new list object holds the given turns |
| `Session.Session.ArchiveValue` | main.py:123-127 | the archive value has one entry per archive entry |
| `Session.Session.constructor` | main.py:107-118 | start-up: empty fresh log, archive loaded from its file, no selection, empty memory. The chat file is untouched |
| `Session.Session.RestoreMemory` | main.py:43-47 | the loop leaves the memory equal to `MemoryOf(log)` |
| `Session.Session.UpdateMemory` | main.py:55-57 | the memory gains exactly the user text, then the emotion note |
| `Session.Session.SendMessage` | main.py:189-204 | empty input changes nothing. Otherwise the log grows by exactly the new turn, memory gains two messages and the chat file equals the log. The archive file is untouched, and only an archive entry sharing the log object changes in memory |
| `Session.Session.RecordTurn` | main.py:194-204 | the memory gains the turn's two messages, the log grows by exactly the turn and the chat file equals the log; only an archive entry sharing the log object changes in memory |
| `Session.Session.ArchiveLog` | main.py:122-127 | the archive grows by one fresh copy `{name, old log}`; earlier entries are unchanged and the archive file is rewritten |
| `Session.Session.ClearLog` | main.py:128-131 | the log is rebound to a fresh empty list, the chat file holds `[]`, memory is empty and the selection cleared; the archive, its value and its file are unchanged |
| `Session.Session.NewChat` | main.py:121-131 | a non-empty log is archived as a copy and the archive file rewritten; an empty log leaves archive and file untouched. Either way the log, chat file and memory are emptied and the selection cleared |
| `Session.Session.DeleteAllHistory` | main.py:133-139 | archive and log emptied, both files hold `[]`, memory empty, selection `None` |
| `Session.Session.LoadArchivedChat` | main.py:141-145 | out of range: nothing changes. In range: the log is the entry's own object, the chat file equals it, and memory has 2 × len(log) messages. Archive, archive file and selection are unchanged |
| `Session.Session.DeleteArchivedChat` | main.py:147-151 | out of range: nothing changes. In range: the entry is removed, the archive file is rewritten and the selection cleared. The log and chat file are untouched |
| `Session.Session.SyncSelection` | main.py:168-173 | with a non-empty archive, the selection becomes the first index of the shown entry's name, ≤ the shown index; an empty archive leaves it alone |
| `Session.TwoTurnSession` | main.py:189-204 | a fresh session after two non-empty messages has a log of exactly the two turns `MakeTurn` gives for them, in order, and an empty archive |
| `Session.NewChatTwiceScenario` | main.py:121-131 | two messages, `new_chat(name)`, `new_chat(other)` leave an archive of exactly one chat `name` holding the two turns `MakeTurn` gives for the messages, in order, and an empty log |
| `Session.LoadThenDeleteScenario` | main.py:141-151 | loading entry i and then deleting it leaves the loaded log as stored and removes only entry i |
| `Session.LoadThenSendScenario` | main.py:141-145 | after loading entry i and sending a message, entry i has the new turn in memory while the archive file still holds the old chat |

## Left out

- Model loading and inference (`main.py:9-22`, `main.py:51`, `main.py:75`) are foreign ML calls. The classifier's answer and the generator's output are parameters. The generator samples, so its output is not a function of the prompt.
- JSON serialisation and the files themselves (`main.py:31-40`) are not modelled. A save is a ghost overwrite of `diskChat` or `diskArchive` with the saved value, and the archive file's content is a constructor parameter (`[]` when the file is missing). Write errors and malformed JSON raise exceptions in `main.py`; the model does not represent them.
- Plotting, the chat transcript and the sidebar widgets (`main.py:80-105` except the colour rule at line 99, `main.py:154-166`, `main.py:174-183`, `main.py:206-226`) are presentation. Button presses become direct method calls. The select box's answer is the `picked` parameter of `SyncSelection`.
- Streamlit re-runs the whole script on every interaction, re-creating the memory (`main.py:28`, `main.py:118`). The model keeps the memory as one field that every operation keeps equal to `MemoryOf(log)`.
- Scores are `real`. Floating-point rounding of the sum and of × 100 is not modelled.
- `Scoring.Lower`: lower-cases the ASCII letters only and keeps the length. Python's `str.lower` also folds non-ASCII letters and can lengthen a string (U+0130 becomes two characters). The classifier's labels are ASCII.
- `Scoring.SortDesc`: Python's sort is stable. The model proves the result sorted and a permutation, and that its head is the first maximum; the order of other equal-score entries is not stated, since only the head is used (`main.py:53`).
- `Scoring.DetectEmotion` requires a non-empty classifier answer, because `main.py:53` indexes `[0]` and would raise on an empty list. `Session.Session.SendMessage` has the same requirement for a non-empty message; an empty message never reaches the classifier (`main.py:189`).
- `Session.MakeTurn`: a turn always holds the user text and the emotion. `restore_memory` reads them with `.get("user", "")` and `.get("emotion", "N/A")` (`main.py:46-47`), so a hand-edited file whose turns lack those keys is read with these defaults. The typed `Turn` cannot express a missing key, so `MemoryOf` does not model the defaults.
- `Scoring.NegativeMass`, `Session.MemoryOf` and `Recommendation.IsSpace` carry no `ensures` of their own. Their properties are stated as lemmas (`NegativeMassIsFilteredSum`, `MemoryOfLength`, `MemoryOfAt`, `MemoryOfAppend`, `IsSpaceAscii`) and callers invoke the lemma they need.
- `Session.Session.SyncSelection` requires the user's pick to be one of the listed entries, as the select box guarantees.
- The emotion classifier's own contract (scores summing to about 1) is not assumed anywhere. `ChurnPercentInRange` states it as a hypothesis.
