/** The Saved Chats page: the JSON record a conversation is saved as, the
    validation a file passes before it is previewed, what loading a record
    restores into the session (and what it leaves alone), the selection mark
    of the preview, and the timestamp shown for a saved file. */
module SavedChats {
  import opened Values
  import opened Text
  import opened Documents
  import opened Chat

  /** The prefix of every saved file name. */
  const ChatPrefix: string := "chat_"

  const LoadSucceeded: string := "Chat loaded successfully!"
  const LoadFailed: string := "Error loading chat into session: "

  // ---------------------------------------------------------------------
  // File names and timestamps

  /** The characters `strftime("%Y%m%d_%H%M%S")` writes. */
  predicate StampChars(stamp: string) {
    forall i :: 0 <= i < |stamp| ==> ('0' <= stamp[i] <= '9' || stamp[i] == '_')
  }

  /** The name a chat saved at `stamp` is written under. */
  function FileName(stamp: string): string {
    ChatPrefix + stamp + ".json"
  }

  /** The timestamp the sidebar shows for a file: the stem with every
      occurrence of the prefix removed. */
  function StemTimestamp(stem: string): string {
    ReplaceAll(stem, ChatPrefix, "")
  }

  /** `format_timestamp`, given what parsing and reformatting the stamp gave
      (None when it does not parse). */
  function FormatTimestamp(stamp: string, reformatted: Option<string>): (r: string)
    ensures reformatted.Some? ==> r == reformatted.value
    ensures reformatted.None? ==> r == stamp
  {
    match reformatted
    case Some(text) => text
    case None => stamp
  }

  /** The stem of a saved file is its prefix and its timestamp. */
  lemma FileNameStem(stamp: string)
    requires StampChars(stamp)
    ensures Stem(FileName(stamp)) == ChatPrefix + stamp
  {
    var name := FileName(stamp);
    var n := |name|;
    forall i | 0 <= i < n ensures name[i] != '/' {
      if 5 <= i < n - 5 {
        assert name[i] == stamp[i - 5];
      }
    }
    assert LastIndex(name, '/') == -1;
    assert Basename(name) == name;
    assert name[n - 5] == '.';
    assert name[n - 4..] == "json";
    assert LastIndex(name, '.') == n - 5;
    assert name[..n - 5] == ChatPrefix + stamp;
  }

  /** The sidebar shows exactly the timestamp a chat was saved with. */
  lemma ShownTimestamp(stamp: string)
    requires StampChars(stamp)
    ensures StemTimestamp(Stem(FileName(stamp))) == stamp
  {
    FileNameStem(stamp);
    var stem := ChatPrefix + stamp;
    assert stem[..|ChatPrefix|] == ChatPrefix;
    assert stem[|ChatPrefix|..] == stamp;
    ReplaceAllAbsent(stamp, ChatPrefix, "");
  }

  /** The prefix is removed wherever it occurs, not only at the start. */
  lemma EveryPrefixRemoved()
    ensures StemTimestamp("chat_a_chat_b") == "a_b"
  {
    var s := "chat_a_chat_b";
    var t := "a_chat_b";
    var u := "_chat_b";
    var w := "chat_b";
    assert s[..5] == ChatPrefix && s[5..] == t;
    assert t[..5][0] != ChatPrefix[0] && t[1..] == u;
    assert u[..5][0] != ChatPrefix[0] && u[1..] == w;
    assert w[..5] == ChatPrefix && w[5..] == "b";
    assert ReplaceAll(w, ChatPrefix, "") == "b";
    assert ReplaceAll(u, ChatPrefix, "") == "_b";
    assert ReplaceAll(t, ChatPrefix, "") == "a_b";
  }

  // ---------------------------------------------------------------------
  // The saved record

  /** One selected document as it is stored. */
  function DocValue(d: Doc): Value {
    Dict(map["path" := Str(d.path), "content" := Str(d.content), "timestamp" := Int(d.timestamp)])
  }

  /** A stored document read back, when it has the three fields. */
  function DocOf(v: Value): Option<Doc> {
    if v.Dict? && "path" in v.entries && v.entries["path"].Str?
       && "content" in v.entries && v.entries["content"].Str?
       && "timestamp" in v.entries && v.entries["timestamp"].Int?
    then Some(Doc(v.entries["path"].s, v.entries["content"].s, v.entries["timestamp"].i))
    else None
  }

  /** A stored document list read back, when every element is a document. */
  function DocsOf(v: Value): (r: Option<seq<Doc>>)
    ensures r.Some? ==> v.List? && |r.value| == |v.items|
                        && forall i :: 0 <= i < |v.items| ==> DocOf(v.items[i]) == Some(r.value[i])
  {
    if v.List? && forall i :: 0 <= i < |v.items| ==> DocOf(v.items[i]).Some?
    then Some(seq(|v.items|, i requires 0 <= i < |v.items| => DocOf(v.items[i]).value))
    else None
  }

  /** The messages of a conversation, each turned into its dictionary. */
  function Encoded(msgs: seq<Message>, toDict: Message -> Value): (r: seq<Value>)
    ensures |r| == |msgs| && forall i :: 0 <= i < |msgs| ==> r[i] == toDict(msgs[i])
  {
    seq(|msgs|, i requires 0 <= i < |msgs| => toDict(msgs[i]))
  }

  /** `save_current_chat`'s record: the messages in order, the stamp, the
      save time, and the selected documents with the document settings read
      from the configuration. */
  function SaveRecord(stamp: string, savedAt: string, msgs: seq<Message>, docs: seq<Doc>,
                      format: Value, instructions: Value, toDict: Message -> Value): Value {
    Dict(map[
      "messages" := List(Encoded(msgs, toDict)),
      "metadata" := Dict(map[
        "timestamp" := Str(stamp),
        "saved_at" := Str(savedAt),
        "documents" := Dict(map[
          "selected_documents" := List(seq(|docs|, i requires 0 <= i < |docs| => DocValue(docs[i]))),
          "document_format" := format,
          "document_instructions" := instructions])])])
  }

  /** What saving reports, given the failure of the write, if any. */
  function SaveMessage(stamp: string, writeError: Option<string>): (r: string)
    ensures writeError.None? <==> StartsWith(r, SavedAs)
    ensures writeError.None? ==> EndsWith(r, FileName(stamp))
    ensures writeError.Some? ==> StartsWith(r, SaveFailed) && EndsWith(r, writeError.value)
  {
    match writeError
    case None =>
      ConcatEnds(SavedAs, [], FileName(stamp));
      assert SavedAs + [] == SavedAs;
      SavedAs + FileName(stamp)
    case Some(e) =>
      ConcatEnds(SaveFailed, [], e);
      assert SaveFailed + [] == SaveFailed;
      assert (SaveFailed + e)[0] != SavedAs[0];
      SaveFailed + e
  }

  const SavedAs: string := "Chat saved successfully as "
  const SaveFailed: string := "Error saving chat: "

  // ---------------------------------------------------------------------
  // Loading

  /** `load_chat_file` given what reading and decoding the file gave: only a
      dictionary with both "messages" and "metadata" is accepted. */
  function LoadChatFile(read: Result<Value>): (r: Result<Value>)
    ensures r.Ok? <==> read.Ok? && read.value.Dict? && "messages" in read.value.entries
                       && "metadata" in read.value.entries
    ensures r.Ok? ==> r.value == read.value
    ensures read.Err? ==> r == Err("Error loading chat: " + read.error)
    ensures read.Ok? && r.Err? ==> r.error == "Invalid chat file format"
  {
    match read
    case Err(e) => Err("Error loading chat: " + e)
    case Ok(v) =>
      if !v.Dict? || "messages" !in v.entries || "metadata" !in v.entries then Err("Invalid chat file format")
      else Ok(v)
  }

  /** `ChatMessage.from_dict` over the stored messages, stopping at the first
      one it refuses. */
  function DecodeAll(items: seq<Value>, fromDict: Value -> Result<Message>): (r: Result<seq<Message>>)
    ensures r.Ok? ==> |r.value| == |items| && forall i :: 0 <= i < |items| ==> fromDict(items[i]) == Ok(r.value[i])
    ensures r.Err? ==> exists i :: 0 <= i < |items| && fromDict(items[i]) == Err(r.error)
    ensures (forall i :: 0 <= i < |items| ==> fromDict(items[i]).Ok?) ==> r.Ok?
  {
    if items == [] then Ok([])
    else
      match DecodeAll(items[..|items| - 1], fromDict)
      case Err(e) => Err(e)
      case Ok(init) =>
        match fromDict(items[|items| - 1])
        case Err(e) => Err(e)
        case Ok(m) => Ok(init + [m])
  }

  /** A refusal in a prefix is the refusal of the whole list. */
  lemma {:induction false} DecodeAllPrefix(items: seq<Value>, n: nat, fromDict: Value -> Result<Message>)
    requires n <= |items| && DecodeAll(items[..n], fromDict).Err?
    ensures DecodeAll(items, fromDict) == DecodeAll(items[..n], fromDict)
    decreases |items| - n
  {
    if n < |items| {
      var next := items[..n + 1];
      assert next[..|next| - 1] == items[..n];
      DecodeAllPrefix(items, n + 1, fromDict);
    } else {
      assert items[..n] == items;
    }
  }

  /** Reading back what was written gives the conversation back, provided
      `from_dict` inverts `to_dict`. */
  lemma DecodeEncoded(msgs: seq<Message>, toDict: Message -> Value, fromDict: Value -> Result<Message>)
    requires forall m :: fromDict(toDict(m)) == Ok(m)
    ensures DecodeAll(Encoded(msgs, toDict), fromDict) == Ok(msgs)
  {
    var items := Encoded(msgs, toDict);
    var r := DecodeAll(items, fromDict);
    assert forall i :: 0 <= i < |items| ==> fromDict(items[i]) == Ok(msgs[i]);
    assert r.Ok?;
    assert r.value == msgs;
  }

  /** The stored documents read back are the documents saved. */
  lemma DocsRoundTrip(docs: seq<Doc>)
    ensures DocsOf(List(seq(|docs|, i requires 0 <= i < |docs| => DocValue(docs[i])))) == Some(docs)
  {
    var v := List(seq(|docs|, i requires 0 <= i < |docs| => DocValue(docs[i])));
    forall i | 0 <= i < |docs| ensures DocOf(v.items[i]) == Some(docs[i]) {
      var e := DocValue(docs[i]).entries;
      assert v.items[i] == DocValue(docs[i]);
      assert e["path"] == Str(docs[i].path) && e["content"] == Str(docs[i].content)
             && e["timestamp"] == Int(docs[i].timestamp);
    }
    var r := DocsOf(v);
    assert r.Some?;
    assert r.value == docs;
  }

  /** The error `obj[key]` raises when `obj` is not a dictionary. */
  function SubscriptError(v: Value): string {
    match v
    case List(_) => "list indices must be integers or slices, not str"
    case Str(_) => "string indices must be integers, not 'str'"
    case _ => "'" + TypeName(v) + "' object is not subscriptable"
  }

  /** `key in v` where it raises: on a value that is not a container. */
  predicate InRaises(v: Value) {
    v.Null? || v.Bool? || v.Int?
  }

  /** The document part of loading, from the metadata: an error, no change
      (None), or the stored `selected_documents` value. */
  function LoadedDocs(meta: Value): Result<Option<Value>> {
    if InRaises(meta) then Err("argument of type '" + TypeName(meta) + "' is not iterable")
    else if !PyIn("documents", meta) then Ok(None)
    else if !meta.Dict? then Err(SubscriptError(meta))
    else
      var docData := meta.entries["documents"];
      if InRaises(docData) then Err("argument of type '" + TypeName(docData) + "' is not iterable")
      else if !PyIn("selected_documents", docData) then Ok(None)
      else if !docData.Dict? then Err(SubscriptError(docData))
      else Ok(Some(docData.entries["selected_documents"]))
  }

  /** What `for msg_dict in chat_data["messages"]` iterates over: the items
      of a list, the one-character strings of a string, nothing for an empty
      dictionary; a value that is not iterable raises. A non-empty dictionary
      is refused: Python would hand its keys, in insertion order, to
      `from_dict`, and a map keeps no order. */
  function MessageItems(v: Value): (r: Result<seq<Value>>)
    ensures v.List? ==> r == Ok(v.items)
    ensures v.Str? ==> r.Ok? && |r.value| == |v.s| && forall i :: 0 <= i < |v.s| ==> r.value[i] == Str([v.s[i]])
    ensures v == Dict(map[]) ==> r == Ok([])
    ensures r.Ok? <==> v.List? || v.Str? || v == Dict(map[])
  {
    match v
    case List(items) => Ok(items)
    case Str(s) => Ok(seq(|s|, i requires 0 <= i < |s| => Str([s[i]])))
    case Dict(m) =>
      if m == map[] then Ok([]) else Err("'str' messages cannot be decoded")
    case _ => Err("'" + TypeName(v) + "' object is not iterable")
  }

  /** `load_chat_to_session` on a record `load_chat_file` accepted: the
      messages are replaced by the decoded list (even when the document part
      then fails), the selected documents only when the metadata holds them;
      the index of the last user message and the awaiting flag are left as
      they were. */
  method LoadChatToSession(data: Value, fromDict: Value -> Result<Message>, chat: ChatState, sel: DocumentSelection)
    returns (ok: bool, message: string)
    requires data.Dict? && "messages" in data.entries && "metadata" in data.entries
    modifies chat, sel
    ensures var items := MessageItems(data.entries["messages"]);
      ok <==> items.Ok? && DecodeAll(items.value, fromDict).Ok? && LoadedDocs(data.entries["metadata"]).Ok?
    ensures ok ==> message == LoadSucceeded
    ensures !ok ==> StartsWith(message, LoadFailed)
    ensures var items := MessageItems(data.entries["messages"]);
      chat.messages == if items.Ok? && DecodeAll(items.value, fromDict).Ok?
                       then DecodeAll(items.value, fromDict).value else old(chat.messages)
    ensures var items := MessageItems(data.entries["messages"]);
      var docs := LoadedDocs(data.entries["metadata"]);
      sel.docs == if items.Ok? && DecodeAll(items.value, fromDict).Ok? && docs.Ok? && docs.value.Some?
                     && DocsOf(docs.value.value).Some?
                  then DocsOf(docs.value.value).value else old(sel.docs)
    ensures chat.lastUserMsgIdx == old(chat.lastUserMsgIdx) && chat.awaitingSelection == old(chat.awaitingSelection)
    ensures chat.showHelp == old(chat.showHelp)
  {
    var iterated := MessageItems(data.entries["messages"]);
    if iterated.Err? {
      return false, LoadFailed + iterated.error;
    }
    var items := iterated.value;
    var decoded: seq<Message> := [];
    var i := 0;
    while i < |items|
      invariant 0 <= i <= |items|
      invariant DecodeAll(items[..i], fromDict) == Ok(decoded)
    {
      var next := items[..i + 1];
      assert next[..|next| - 1] == items[..i];
      match fromDict(items[i]) {
        case Err(e) =>
          DecodeAllPrefix(items, i + 1, fromDict);
          return false, LoadFailed + e;
        case Ok(m) =>
          decoded := decoded + [m];
      }
      i := i + 1;
    }
    assert items[..i] == items;
    chat.messages := decoded;
    match LoadedDocs(data.entries["metadata"]) {
      case Err(e) =>
        return false, LoadFailed + e;
      case Ok(None) =>
        return true, LoadSucceeded;
      case Ok(Some(stored)) =>
        match DocsOf(stored) {
          case Some(docs) => sel.docs := docs;
          case None =>
        }
        return true, LoadSucceeded;
    }
  }

  /** Saving and then loading restores the conversation and the selected
      documents, provided `from_dict` inverts `to_dict`. */
  lemma SaveLoadRoundTrip(stamp: string, savedAt: string, msgs: seq<Message>, docs: seq<Doc>,
                          format: Value, instructions: Value,
                          toDict: Message -> Value, fromDict: Value -> Result<Message>)
    requires forall m :: fromDict(toDict(m)) == Ok(m)
    ensures var rec := SaveRecord(stamp, savedAt, msgs, docs, format, instructions, toDict);
      LoadChatFile(Ok(rec)) == Ok(rec)
      && DecodeAll(rec.entries["messages"].items, fromDict) == Ok(msgs)
      && LoadedDocs(rec.entries["metadata"]).Ok?
      && LoadedDocs(rec.entries["metadata"]).value.Some?
      && DocsOf(LoadedDocs(rec.entries["metadata"]).value.value) == Some(docs)
  {
    DecodeEncoded(msgs, toDict, fromDict);
    DocsRoundTrip(docs);
  }

  // ---------------------------------------------------------------------
  // The preview

  /** The mark in front of an assistant reply in the preview: "✓ " when the
      stored `selected` flag is truthy, nothing when it is absent or falsy;
      a message or meta that is not a dictionary raises. The preview asks for
      the mark only after it has found the role to be "assistant", so the
      role is not looked at here. */
  function SelectionMark(msg: Value): (r: Result<string>)
    ensures r.Ok? <==> msg.Dict? && Get(msg.entries, "meta", Dict(map[])).Dict?
    ensures r == Ok("✓ ") <==>
      msg.Dict? && "meta" in msg.entries && msg.entries["meta"].Dict?
      && "selected" in msg.entries["meta"].entries && Truthy(msg.entries["meta"].entries["selected"])
  {
    if !msg.Dict? then Err("'" + TypeName(msg) + "' object has no attribute 'get'")
    else
      var meta := Get(msg.entries, "meta", Dict(map[]));
      if !meta.Dict? then Err("'" + TypeName(meta) + "' object has no attribute 'get'")
      else if Truthy(Get(meta.entries, "selected", Bool(false))) then Ok("✓ ")
      else Ok("")
  }
}
