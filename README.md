# Multi-LLM chat: a Dafny model of the session logic

The application is a Streamlit front end that sends one conversation to
several language models at once. The user picks models (Ollama or AWS
Bedrock), optionally attaches documents (picked from a folder or found by
keyword search), chats, chooses which model's reply stays in the
conversation, and saves or reloads conversations. Settings live in a
three-section configuration (`global`, `pages`, `providers`) that templates
can overlay.

This project models the state those pages keep between reruns and the
operations that change it:

- `values.dfy`: JSON/YAML-like dynamic values (`Value`), with Python's
  truthiness, `dict.get`, `type(x).__name__` and the `in` operator.
- `text.dfy`: the string and path helpers the pages rely on (`strip`,
  `join`, `lower`, `replace`, `os.path.basename`/`dirname`/`splitext`,
  `pathlib` suffix and stem).
- `formatter.dfy`: the three copies of `format_document` and the shared
  preview layout (instructions, blank line, one block per document).
- `documents.dfy`: the document selection of the Documents page (add,
  remove, preview, statistics, grouping by directory).
- `models.dfy`: the selected-model list and the provider listings.
- `chat.dfy`: the chat session: the history sent to the models, response
  runs, dispatch to every model, the choice of a reply, usage counters,
  commands and reset.
- `config.dfy`: `ConfigManager`: loading, defaults, getters and setters,
  template overlay by recursive merge.
- `saved_chats.dfy`: saving a conversation to a record, validating and
  loading it back, the file-name timestamp, and the preview's selection mark.
- `search.dfy`: paragraph chunking, indexing with the set of indexed files,
  the buffer of selected search results, its preview, and the hand-over
  to the chat.

Session state that the source mutates in place is a class with fields:
`Chat.ChatState`, `Documents.DocumentSelection`, `Models.ModelList`,
`Config.ConfigManager` and `Search.SearchState`. The methods of these
classes are proved against specification functions (`History`,
`Responses`, `Replies`, `Preview`, `Merge`, `Indexing`, `Chunks`, ...).
The properties of the pages are lemmas about those functions.

Calls into code outside the model are parameters:

- the model back ends (`generate`);
- `ChatMessage.to_dict`/`from_dict`;
- file reads;
- the clock;
- the YAML parser;
- the values that `get_page_config_with_fallback` returns (`style`, `instructions`).

## Model

| member | source | states |
|---|---|---|
| Chat.KeptAppend | src/pages/03_Chat.py:77-95 | the filter that builds the history distributes over concatenation |
| Chat.KeptMembers | src/pages/03_Chat.py:77-95 | a message is in the filtered history iff it is in the conversation and is a user message, a single-model reply or a selected reply; the filter never grows the list |
| Chat.KeptAll | src/pages/03_Chat.py:77-95 | a conversation made only of history-eligible messages is kept unchanged |
| Chat.KeptNone | src/pages/03_Chat.py:77-95 | a run of replies none of which is eligible contributes nothing to the history |
| Chat.HistoryShape | src/pages/03_Chat.py:77-95 | the history is the system prompt (only when it is not blank) followed by the filtered conversation; every non-system message in it comes from the conversation |
| Chat.ChatState.EffectiveHistory | src/pages/03_Chat.py:77-95 | the loop builds exactly the history specification `History` |
| Chat.RunEnd | src/pages/03_Chat.py:97-104 | the end of the maximal run of assistant messages starting at an index |
| Chat.RunEndAppend | src/pages/03_Chat.py:97-104 | appending replies to a conversation that ends in a run extends that run to the new end |
| Chat.RunEndTail | src/pages/03_Chat.py:97-104 | a run of assistant messages reaching the end ends at the end |
| Chat.RunAfterSubmit | src/pages/03_Chat.py:97-104 | after a user message and its replies, the responses for that message are exactly those replies |
| Chat.RetryExtendsRun | src/pages/03_Chat.py:97-104 | "/retry" appends its replies to the run of the last user message |
| Chat.ChatState.ResponsesFor | src/pages/03_Chat.py:97-104 | the loop returns exactly the run of replies after the message at the index |
| Chat.ChatState.Reset | src/pages/03_Chat.py:131-142 | conversation emptied, last-user index -1, no selection awaited, every model's configuration kept with its counters cleared |
| Chat.ExtractTokenUsage | src/pages/03_Chat.py:145-184 | no usage iff the reply is explicitly not done or carries no usage; otherwise missing counts default to 0 and speed is available iff output tokens and duration are both positive |
| Chat.FirstWithId | src/pages/03_Chat.py:187-215 | the index of the first model with the id, or the length when none has it |
| Chat.ApplyUsageEffect | src/pages/03_Chat.py:187-215 | only the first model with the id changes: one more response, totals grown by the reply's tokens and duration; configuration and every other model unchanged; an unknown id changes nothing |
| Chat.UpdateModelUsageStats | src/pages/03_Chat.py:187-215 | the model list becomes the usage update, or stays as it was when there is no usage |
| Chat.SpeedShownAfterUsage | src/pages/03_Chat.py:106-129 | after a reply with a speed, the model's statistics show a speed |
| Chat.ChatFormatted | src/pages/03_Chat.py:56-74 | one formatted block per document |
| Chat.PrepareDocumentContext | src/pages/03_Chat.py:56-74 | no context without documents; otherwise the preview of the Chat-formatted documents |
| Chat.SubmittedTextShape | src/pages/03_Chat.py:435-447 | only the first message of a conversation carries the document context, placed before the prompt; later messages are the prompt alone |
| Chat.ChatState.Submit | src/pages/03_Chat.py:435-447 | appends one user message and points the last-user index at it; nothing else changes |
| Chat.CountUsageFrame | src/pages/03_Chat.py:455-549 | counting a reply's usage touches only the counters of the answering model |
| Chat.TurnStep | src/pages/03_Chat.py:455-549 | asking one more model appends its reply (or its error) and its usage to those of the models before it |
| Chat.RepliesCount | src/pages/03_Chat.py:455-549 | replies and errors of a turn together number exactly the configured models |
| Chat.RepliesAreReplies | src/pages/03_Chat.py:455-549 | every reply of a turn is an assistant message, pre-selected exactly when a single model is configured |
| Chat.RepliesAllSucceed | src/pages/03_Chat.py:455-549 | when every call succeeds, the i-th reply carries the i-th configured model's id |
| Chat.RepliesShape | src/pages/03_Chat.py:455-549 | every model yields exactly one reply or one error, replies are assistant messages, and when every call succeeds there is one reply per model in model order |
| Chat.RepliesInHistory | src/pages/03_Chat.py:455-549 | with several models no fresh reply enters the history until one is selected; with one model every reply does |
| Chat.StatsAfterFrame | src/pages/03_Chat.py:455-549 | a turn keeps the number, order and configuration of the models and changes only their counters |
| Chat.SingleModelUsage | src/pages/03_Chat.py:455-549 | with one model and a successful reply carrying usage, that model's response count grows by one |
| Chat.ChatState.CallModel | src/pages/03_Chat.py:455-549 | one model call appends that model's reply, counts its usage and reports its error |
| Chat.ErrorMessage | src/pages/03_Chat.py:541-548 | a Bedrock throttling error of a streamed conversation names the model and the error and ends with the hint to type `/retry`; any other error is the generic message ending with the error text |
| Chat.ChatState.AskModels | src/pages/03_Chat.py:455-549 | the loop over the models gives exactly the replies, counters and errors of the specification, every model being sent the same history; the other session fields are unchanged |
| Chat.ChatState.Dispatch | src/pages/03_Chat.py:455-557 | every selected model is asked in order with the same history; replies, counters and errors are those of the specification; a selection is awaited afterwards iff one already was or more than one model is selected |
| Chat.ChatState.HandleChatInput | src/pages/03_Chat.py:427-447 | "/help" only shows help; "/retry" sends the history again without a new message; any other text becomes a user message that is sent to every model |
| Chat.ExclusiveRunHistory | src/pages/03_Chat.py:380-403 | a run with one selected reply and all others deselected contributes exactly that reply to the history |
| Chat.KeptSingle | src/pages/03_Chat.py:380-403 | a single message is kept iff it is history-eligible |
| Chat.ChatState.Deselect | src/pages/03_Chat.py:393-395 | every message of the given range is marked deselected; every other message and session field is unchanged |
| Chat.ChatState.SelectResponse | src/pages/03_Chat.py:380-403 | selecting a reply deselects the rest of its run so exactly one reply of the run is selected; an unchanged value does nothing; a selection for the last user message ends the wait |
| Chat.StartChat | src/pages/01_Model_Selection.py:346-355 | the chat starts iff models are configured, and then with an empty conversation, last-user index -1 and no awaited selection (the Documents page's button at src/pages/02_Documents.py:358-364 leads to the same start) |
| Formatter.LangFor | src/pages/02_Documents.py:69-99 | the code-fence language is the map's entry for the lower-cased extension, or empty |
| Formatter.ChatFormatDocument | src/pages/03_Chat.py:28-54 | the Chat copy wraps the content unchanged between the style's header and footer, with the language of the `os.path.splitext` extension; outside markdown the language plays no part |
| Formatter.SearchFormatDocument | src/pages/05_Search.py:262-291 | the Search copy wraps the content unchanged between the style's header and footer, with the language of the `pathlib` suffix; outside markdown the language plays no part |
| Formatter.DocumentsFormatDocument | src/pages/02_Documents.py:69-99 | the Documents copy wraps the content unchanged between the style's header and footer, with the language of the `pathlib` suffix in the configured table; outside markdown the language plays no part |
| Formatter.FormatFrames | src/pages/05_Search.py:262-291 | a formatted block is the style's header, the content unchanged, and the style's footer; the header names the document |
| Formatter.FormatInjective | src/pages/05_Search.py:262-291 | two contents formatted under the same name and style give the same block iff they are equal |
| Formatter.MarkdownExample | src/pages/05_Search.py:262-291 | the suffix of "src/app.PY" is looked up lower-cased, so the Search copy fences it as python |
| Formatter.SplitExtLeadingDots | src/pages/03_Chat.py:28-54 | `os.path.splitext` gives no extension for "..py" |
| Formatter.PathSuffixLeadingDots | src/pages/05_Search.py:262-291 | `pathlib` gives ".py" as the suffix of "..py" |
| Formatter.DefaultLangs | src/pages/03_Chat.py:36-49 | the built-in table fences ".py" as python and has no language for a missing extension |
| Formatter.CopiesDifferOnLeadingDots | src/pages/03_Chat.py:28-54 | for "..py" the Chat copy finds no extension and no language, the Search copy finds ".py" and python, so their markdown fences differ |
| Formatter.CopiesAgreeOutsideMarkdown | src/pages/02_Documents.py:69-99 | outside the markdown style the three copies produce the same block |
| Formatter.BlocksStep | src/pages/02_Documents.py:102-123 | each loop step appends the next block and a blank line |
| Formatter.BlocksAppend | src/pages/02_Documents.py:102-123 | the blocks of two selections concatenate |
| Formatter.PreviewShape | src/pages/02_Documents.py:102-123 | a non-empty preview starts with the instructions and a blank line, and each document's block follows the blocks before it |
| Documents.DocumentSelection.AddDocument | src/pages/02_Documents.py:126-145 | an already selected path or a read error leaves the selection unchanged, and only a read error is reported; otherwise the document is appended; unique paths stay unique |
| Documents.DocumentSelection.RemoveDocument | src/pages/02_Documents.py:148-152 | every document with the path is removed and the rest keep their order; with unique paths the path is gone and paths stay unique |
| Documents.WithoutPathMembers | src/pages/02_Documents.py:148-152 | a document survives removal iff it was selected and has another path |
| Documents.WithoutAbsentPath | src/pages/02_Documents.py:148-152 | removing an unselected path changes nothing |
| Documents.WithoutPathUnique | src/pages/02_Documents.py:148-152 | removal keeps paths unique and leaves no document with the path |
| Documents.RemoveUndoesAdd | src/pages/02_Documents.py:126-152 | removing a document just added restores the selection |
| Documents.FormattedDocs | src/pages/02_Documents.py:102-123 | one formatted block per selected document |
| Documents.DocumentSelection.GeneratePreview | src/pages/02_Documents.py:102-123 | the loop builds the preview of the Documents-formatted selection, or the "No documents selected." sentinel |
| Documents.Contents | src/pages/02_Documents.py:390-392 | the contents of the selection, in order |
| Documents.FloorDiv | src/pages/02_Documents.py:390-399 | Python's `//`: the quotient rounded toward minus infinity, for either sign of the divisor |
| Documents.DocumentSelection.EstimateTokens | src/pages/02_Documents.py:390-404 | total characters; for a non-zero ratio the characters floor-divided by it, and a warning iff that estimate exceeds the threshold; a zero ratio raises `ZeroDivisionError`, so no estimate and no warning |
| Documents.InDirMembers | src/pages/02_Documents.py:218-223 | a file is in a directory's group iff it is listed and its directory (or ".") is that key |
| Documents.GroupsPartition | src/pages/02_Documents.py:218-223 | each listed file is in exactly the group of its own directory |
| Documents.GroupByDirectory | src/pages/02_Documents.py:218-223 | one group per directory that occurs, holding that directory's files in listing order |
| Models.ModelId | src/pages/01_Model_Selection.py:108-125 | the id starts with provider, "_", name and "_" |
| Models.ModelList.AddModel | src/pages/01_Model_Selection.py:108-129 | appends one model with the given provider and name, no counters and an id built from them; an Ollama model takes its server URL out of the parameters (the default URL when there is none), any other keeps its parameters; earlier models unchanged |
| Models.ModelList.RemoveModel | src/pages/01_Model_Selection.py:132-136 | the list without every model of that id, in order |
| Models.WithoutIdMembers | src/pages/01_Model_Selection.py:132-136 | a model survives removal iff it was listed and has another id |
| Models.WithoutIdShorter | src/pages/01_Model_Selection.py:132-136 | removal never lengthens the list |
| Models.WithoutUnknownId | src/pages/01_Model_Selection.py:132-136 | removing an id no model has leaves the list unchanged |
| Models.WithoutIdKeeps | src/pages/01_Model_Selection.py:132-136 | a model survives iff it was listed and has another id; an unknown id changes nothing |
| Models.ModelList.ClearModels | src/pages/01_Model_Selection.py:310-311 | the list is emptied |
| Models.DisplayNameShape | src/pages/01_Model_Selection.py:34-52 | the display name starts with the model name; it is the bare name iff no detail is known; otherwise the known parameter size and quantization follow in parentheses, in that order and separated by ", " when both are known, alone when only one is |
| Models.DisplayName | src/pages/01_Model_Selection.py:34-52 | the shown name starts with the model name and is the bare name when no details are known |
| Models.InsertByKey | src/pages/01_Model_Selection.py:56-57 | inserting keeps the same entries plus the new one |
| Models.InsertKeepsSorted | src/pages/01_Model_Selection.py:56-57 | insertion into a sorted list keeps it sorted by display name |
| Models.SortByKey | src/pages/01_Model_Selection.py:56-57 | sorting is a permutation |
| Models.SortByKeySorted | src/pages/01_Model_Selection.py:56-57 | the listing is sorted by lower-cased display name and is a permutation of the models returned |
| Models.EntriesOf | src/pages/01_Model_Selection.py:34-52 | one entry per returned model, in order |
| Models.OllamaModels | src/pages/01_Model_Selection.py:22-65 | a 200 answer gives its models sorted by display name; any other outcome gives the single fallback entry |
| Models.ChatModelIdsMembers | src/pages/01_Model_Selection.py:68-96 | an id is listed iff some model has it and takes text in, gives text out and is ACTIVE |
| Models.BedrockModels | src/pages/01_Model_Selection.py:68-96 | a failure gives the default model; a listing gives the chat models or the default when there is none; never empty |
| Config.ConfigManager.GetGlobal | src/utils/config_manager.py:134-138 | the default when there is no configuration or no global section; the stored value of a key present in the global section and the default for an absent one; an error when the configuration or the global section is not a dictionary |
| Config.ConfigManager.SetGlobal | src/utils/config_manager.py:140-144 | succeeds iff the global section is writable; then reading the key gives the value, every other key reads as before and the other sections are untouched; a failure changes nothing |
| Config.ConfigManager.GetScoped | src/utils/config_manager.py:146-150 | `get_page_config` (and `get_provider_config`, lines 160-164): the default when there is no configuration or the section, the entry or the key is missing; the stored value of a present key; an error when a present level is not a dictionary |
| Config.ConfigManager.SetScoped | src/utils/config_manager.py:152-158 | `set_page_config` (and `set_provider_config`, lines 166-172): creates the entry when missing, then reading the key gives the value; other keys, entries and sections unchanged; a failure changes nothing |
| Config.ConfigManager.LoadAppConfig | src/utils/config_manager.py:47-62 | success iff the file reads and its value has the three sections (added when a dictionary lacks them); an empty file gives three empty sections; any failure installs the default configuration |
| Config.ConfigManager.Initialize | src/utils/config_manager.py:12-62 | an existing configuration is kept; otherwise a missing file or a file that cannot be read or loaded installs the defaults, and a loadable file installs its configuration; a configuration always exists afterwards |
| Config.ConfigManager.LoadTemplate | src/utils/config_manager.py:74-90 | succeeds iff the template reads and a configuration exists; then the template is merged into it and becomes the active template; a failure changes nothing |
| Config.Merge | src/utils/config_manager.py:174-189 | the keys of the result are the base's plus the overlay's except `_metadata`; base keys the overlay lacks are kept; overlay values that are not both dictionaries overwrite |
| Config.MergeConfig | src/utils/config_manager.py:174-189 | the recursive loop computes exactly the merge |
| Config.MergeNothing | src/utils/config_manager.py:174-189 | an overlay holding nothing but `_metadata` changes nothing |
| Config.MergeSelf | src/utils/config_manager.py:174-189 | merging a configuration into itself changes nothing |
| Config.MergeIdempotent | src/utils/config_manager.py:174-189 | applying the same template twice gives the same configuration as applying it once |
| SavedChats.FileNameStem | src/pages/04_Saved_Chats.py:59-60 | the stem of a saved file's name is "chat_" followed by the timestamp |
| SavedChats.FormatTimestamp | src/pages/04_Saved_Chats.py:26-32 | the reformatted text when the stamp parses, the stamp unchanged otherwise |
| SavedChats.ShownTimestamp | src/pages/04_Saved_Chats.py:137-141 | removing "chat_" from a saved file's stem gives back the timestamp it was saved with |
| SavedChats.EveryPrefixRemoved | src/pages/04_Saved_Chats.py:140 | the removal takes out every "chat_" in the stem, not only the leading one |
| SavedChats.DocsOf | src/pages/04_Saved_Chats.py:86-109 | stored documents decode to one document per list item |
| SavedChats.Encoded | src/pages/04_Saved_Chats.py:64-65 | each message is saved as its `to_dict` value, in order |
| SavedChats.DocsRoundTrip | src/pages/04_Saved_Chats.py:56-109 | the saved list of documents decodes back to the same documents |
| SavedChats.LoadChatFile | src/pages/04_Saved_Chats.py:42-54 | accepted iff the file reads to a dictionary with "messages" and "metadata", returned unchanged; otherwise the read error or "Invalid chat file format" |
| SavedChats.MessageItems | src/pages/04_Saved_Chats.py:90-92 | what the loop iterates: a list's items, a string's characters one by one, nothing for an empty dictionary; an error for a value that is not iterable and for a non-empty dictionary |
| SavedChats.DecodeAll | src/pages/04_Saved_Chats.py:89-92 | success gives one message per item decoded by `from_dict`; failure is the error of some item; all items decoding gives success |
| SavedChats.DecodeAllPrefix | src/pages/04_Saved_Chats.py:89-92 | the first failing item decides the error |
| SavedChats.DecodeEncoded | src/pages/04_Saved_Chats.py:56-92 | decoding the saved messages gives back the conversation when `from_dict` inverts `to_dict` |
| SavedChats.LoadChatToSession | src/pages/04_Saved_Chats.py:86-109 | success iff the stored messages can be iterated, every item decodes and the document part does not raise; the conversation is replaced by the decoded messages even when the document part then fails; the documents only when stored |
| SavedChats.SaveRecord | src/pages/04_Saved_Chats.py:56-84 | see `SaveLoadRoundTrip` |
| SavedChats.SaveMessage | src/pages/04_Saved_Chats.py:78-84 | the success message iff the write did not fail, and it ends with the file name; otherwise the failure message ending with the error |
| SavedChats.SaveLoadRoundTrip | src/pages/04_Saved_Chats.py:56-109 | a saved record passes validation, its messages decode to the conversation and its documents to the selection |
| SavedChats.SelectionMark | src/pages/04_Saved_Chats.py:233-240 | "✓ " iff the reply's meta holds a truthy `selected`; an error when the message or its meta is not a dictionary |
| Search.SpaceRunEnd | src/pages/05_Search.py:56 | the end of the run of whitespace from a position |
| Search.SeparatorEnd | src/pages/05_Search.py:56 | a separator match starts and ends with a newline and has at least two characters |
| Search.SplitFrom | src/pages/05_Search.py:56 | splitting yields at least one piece |
| Search.SplitExample | src/pages/05_Search.py:56 | "a\n \n\tb" splits into "a" and "\tb": the separator takes whitespace only up to its last newline |
| Search.SeparatorsFrom | src/pages/05_Search.py:56 | every matched separator starts and ends with a newline and has at least two characters |
| Search.InterleaveCons | src/pages/05_Search.py:56 | putting separators back works one piece at a time |
| Search.SplitCount | src/pages/05_Search.py:56 | the scan yields exactly one piece more than the separators it matches |
| Search.PieceBeforeSeparator | src/pages/05_Search.py:56 | a piece and the separator after it, put in front of the rest, give back the text from the piece's start |
| Search.SplitRoundTrip | src/pages/05_Search.py:56 | there is one more piece than separators, and the pieces with the separators put back between them are the scanned text |
| Search.SplitParagraphsRoundTrip | src/pages/05_Search.py:56 | `re.split` loses nothing: the paragraphs with the separators put back are the text |
| Search.PackShape | src/pages/05_Search.py:59-100 | the open chunk is empty only while no chunk is closed, closed chunks are never empty, and chunks exist iff some paragraph is not blank |
| Search.JoinExtendLast | src/pages/05_Search.py:59-100 | extending the last chunk by a separator and a paragraph extends the joined text the same way |
| Search.PackJoin | src/pages/05_Search.py:59-100 | joining the chunks with a blank line gives the stripped non-empty paragraphs joined with a blank line: no text is lost, duplicated or reordered |
| Search.PackBound | src/pages/05_Search.py:59-100 | every chunk is a single paragraph or at most the limit plus two characters |
| Search.ChunkDocs | src/pages/05_Search.py:92-100 | one snippet document per chunk, numbered from 0, with the file's path and name |
| Search.SplitByParagraphs | src/pages/05_Search.py:51-102 | the loop builds exactly the chunk documents of the packed paragraphs |
| Search.FileDocs | src/pages/05_Search.py:197-224 | a file below the limit is one whole document; a larger one is its numbered chunks followed by the whole document |
| Search.IndexingMembers | src/pages/05_Search.py:172-233 | a file is in the indexed set after a run exactly when it was there before, or it was listed and could be read |
| Search.IndexingSet | src/pages/05_Search.py:172-233 | after indexing, the indexed set is the old set plus exactly the listed files that could be read |
| Search.NothingNew | src/pages/05_Search.py:172-233 | when every listed file is indexed already or unreadable, indexing adds nothing |
| Search.IndexAgain | src/pages/05_Search.py:172-233 | indexing the same files again adds no documents and leaves the indexed set unchanged |
| Search.SearchState.IndexFiles | src/pages/05_Search.py:172-233 | the loop adds the documents, count, errors and indexed set of the specification; the selection is untouched |
| Search.SearchState.ResetIndex | src/pages/05_Search.py:687-691 | the index and the indexed set are emptied; the selection is kept |
| Search.SearchState.AddSearchResult | src/pages/05_Search.py:293-315 | an item with the same path and content is not added again; a whole file replaces the snippets of its path; unique items stay unique; the list stays in timestamp order when the clock has not gone back |
| Search.ItemsWithoutPathMembers | src/pages/05_Search.py:293-315 | an item survives iff it was selected and has another path |
| Search.ItemsWithoutPathUnique | src/pages/05_Search.py:293-315 | removing a path keeps items unique |
| Search.ItemsWithoutPathSorted | src/pages/05_Search.py:302-307 | dropping a path keeps the list in timestamp order |
| Search.LatestAppendSorted | src/pages/05_Search.py:309-315 | appending an item no older than every stored one keeps the list in timestamp order |
| Search.AddedKeeps | src/pages/05_Search.py:293-315 | adding a new item keeps items unique, keeps timestamp order when the clock has not gone back, and after a whole file leaves no other item of its path |
| Search.SearchState.RemoveSearchResult | src/pages/05_Search.py:318-323 | a valid index removes exactly that item and keeps the order; an invalid one changes nothing; unique items stay unique and timestamp order is kept |
| Search.RemoveAtUnique | src/pages/05_Search.py:318-323 | removing one item keeps items unique |
| Search.RemoveAtSorted | src/pages/05_Search.py:318-323 | removing one item keeps the list in timestamp order |
| Search.RemoveAtMultiset | src/pages/05_Search.py:318-323 | removing one item loses exactly that item |
| Search.RemoveAtKeeps | src/pages/05_Search.py:318-323 | removal keeps the other items, their uniqueness and their timestamp order |
| Search.SearchState.ClearSelected | src/pages/05_Search.py:543-545 | the selection is emptied and the index kept; the empty list is in timestamp order |
| Search.SearchFormatted | src/pages/05_Search.py:325-356 | one formatted block per selected item |
| Search.SearchState.GeneratePreview | src/pages/05_Search.py:325-356 | the loop builds the preview of the selected items, snippets named with " (snippet)" |
| Search.Transferred | src/pages/05_Search.py:628-644 | one chat document per selected item |
| Search.PreviewMatchesChat | src/pages/05_Search.py:325-356 | given the same style and the same instructions on both pages, and outside the markdown style, the Search preview is exactly the document context the chat sends for the transferred items |
| Search.TransferCanRepeatPaths | src/pages/05_Search.py:628-644 | two snippets of one file are distinct search items but give two chat documents with the same path |
| Search.StartChatFromSearch | src/pages/05_Search.py:625-651 | starts iff models are configured; then the selected results replace the documents when there are any, and the conversation starts over |

## Left out

- Rendering, widgets, page navigation, spinners and streaming are left out. Only the session state the pages keep is modelled.
- The back ends are left out: `get_generator`, the Ollama and Bedrock generators, and the HTTP calls of the model listings. The model takes their outcomes as parameters (`generate`, `OllamaResponse`, `BedrockResponse`).
- The throttling pause between model calls is left out; it changes no state.
- Floating point is not modelled. Tokens per second are not computed: the model only tracks whether a speed is shown. Timestamps are opaque integers from the clock.
- The clock, file reads and directory listings are parameters. So are the YAML and JSON parsers. `list_files`, `list_markdown_files` and `read_file_content` are not part of this model.
- `save_app_config`, `save_as_template` and `list_templates` write or list files and are not part of this model.
- `get_page_config_with_fallback` is not part of this model. Its results reach the Search preview as the `style` and `instructions` parameters. The chat reads its own settings with `get_page_config` and `get_global` (src/pages/03_Chat.py:62,65); they reach the model as parameters too.
- The BM25 retriever, `search_documents` and result highlighting are not part of this model. Only indexing and the selection buffer are modelled.
- The Search sidebar token estimate is left out. It is the floor division modelled for the Documents page.
- A change of base folder on the Search page is modelled by `ResetIndex`. The retriever it also drops is not part of this model.
- Sorting saved chats by modification time is left out, as is sorting files for display.
- Search.SearchState.RemoveSearchResult: the page lists the selection sorted by timestamp, and each remove button passes its position in that listing (src/pages/05_Search.py:523-539). The model does not sort for display. It removes at the stored position and proves that the stored list stays in timestamp order (`SortedByTime`) as long as the clock never goes back. Under that condition the two positions are the same; the clock is a parameter, so the model cannot promise it.
- Search.PreviewMatchesChat: holds only when both pages use the same style and instructions. The Search page reads them with `get_page_config_with_fallback("search", …)` (src/pages/05_Search.py:333-344). The chat reads `pages.documents.format` and the global `documents.instructions` (src/pages/03_Chat.py:62,65). A format chosen on the Search page is written to `pages.search.format` and never reaches the chat.
- `Text.Lower` folds ASCII letters only. `Text.Dirname` and the path helpers do not normalise paths.
- Chat.ChatState.HandleChatInput: requires that no selection is awaited. The page does not guard the call itself; it disables the input widget while a selection is pending (src/pages/03_Chat.py:427).
- Chat.ChatState.SelectResponse: models one radio change per rerun, as the page handles it.
- Models.SortByKey: proved sorted and a permutation, but not stable as Python's `sorted` is.
- SavedChats.LoadChatToSession: a non-empty dictionary of `messages` is an error. Python hands its keys to `from_dict` in insertion order; the model's maps keep no order, and `from_dict` refuses a string. An empty string or dictionary loads an empty conversation, as in Python.
- SavedChats.LoadChatToSession: stored `selected_documents` that do not decode to documents leave the selection unchanged. Python assigns the raw value.
- SavedChats.FormatTimestamp: the `strptime`/`strftime` reformatting is a parameter.
- SavedChats.SaveLoadRoundTrip: `ChatMessage.to_dict`/`from_dict` are parameters, so the round trip is proved under the hypothesis that `from_dict` inverts `to_dict`.
- Config.Merge: nested dictionaries are values, so the in-place update of `_merge_config` and any aliasing between the template and the configuration are not modelled.
- Config.ConfigManager: the Streamlit session cache that keeps one manager per session is not modelled. `Initialize` covers the "already initialised" case with an existing configuration.

Three behaviours of the code that are easy to misread:

- the preview's selection mark is shown for any truthy `selected`, not only for `True`;
- a reply without a `done` flag counts as done when usage is extracted;
- the three `format_document` copies compute the markdown language differently: `os.path.splitext` in the Chat page and `pathlib` suffix in the Search page. They disagree on names such as "..py".
