/**
 * The state machine of the editor screen (frontend/src/screens/Project.jsx): the local file tree, the
 * current file and open tabs, the chat history, the debounced save and its status, the outgoing socket
 * messages and the snapshots mounted into the execution sandbox. React state updates are modelled as
 * atomic field assignments; timers, HTTP requests and socket emissions become pending or recorded values.
 */
module ProjectScreen {
  import opened Wrappers
  import opened JsValues
  import opened Text
  import opened Sequences
  import opened EditorFiles

  /** What the `project-message` listener does with one received `data`. */
  datatype Receipt =
    | Dropped                                   // a TypeError before anything is appended
    | OwnEcho                                   // `data.sender.email === user.email`: ignored
    | Incoming(entry: Json, delta: Option<Json>) // appended as `entry`; `delta` is merged into the tree

  /**
   * The receive filter followed by `appendIncomingMessage`: the message is dropped when reading
   * `data.sender.email`, `user.email` or `msg.message.FileTree` throws, ignored when it is the user's own,
   * and otherwise appended with type 'incoming' and the arrival time, carrying a delta exactly when the
   * sender is the AI, the message is an object and its `FileTree` is truthy. An AI message whose
   * `message` is `null` is dropped too: `typeof null` is 'object' and reading its `FileTree` throws.
   */
  function Receive(data: Json, user: Option<Json>, now: int): (r: Receipt)
    ensures AccessThrows(Member(Some(data), "sender")) || AccessThrows(user) ==> r == Dropped
    ensures !AccessThrows(Member(Some(data), "sender")) && !AccessThrows(user) ==>
              (r == OwnEcho <==> StrictEquals(Member(Member(Some(data), "sender"), "email"), Member(user, "email")))
    ensures !AccessThrows(Member(Some(data), "sender")) && !AccessThrows(user) &&
            !StrictEquals(Member(Member(Some(data), "sender"), "email"), Member(user, "email")) ==>
              && (r.Incoming? <==> !(SentByAi(data) && Member(Some(data), "message") == Some(JNull)))
              && (SentByAi(data) && Member(Some(data), "message") == Some(JNull) ==> r == Dropped)
    ensures r.Incoming? ==>
              data.JObject? && r.entry == JObject(data.fields["type" := JString("incoming")]["timestamp" := JNumber(now)])
    ensures r.Incoming? ==>
              (r.delta.Some? <==>
                 SentByAi(data) && TypeofObject(Member(Some(data), "message")) &&
                 Truthy(Member(Member(Some(data), "message"), "FileTree")))
    ensures r.Incoming? && r.delta.Some? ==> Some(r.delta.value) == Member(Member(Some(data), "message"), "FileTree")
  {
    var sender := Member(Some(data), "sender");
    var message := Member(Some(data), "message");
    var fromAi := SentByAi(data);
    if AccessThrows(sender) || AccessThrows(user) then Dropped
    else if StrictEquals(Member(sender, "email"), Member(user, "email")) then OwnEcho
    else if fromAi && TypeofObject(message) && message.value.JNull? then Dropped
    else
      var delta := if fromAi && TypeofObject(message) && Truthy(Member(message, "FileTree"))
                   then Some(Member(message, "FileTree").value) else None;
      Incoming(JObject(data.fields["type" := JString("incoming")]["timestamp" := JNumber(now)]), delta)
  }

  /** A message from anyone but the AI never changes the tree. */
  lemma OnlyAiMessagesCarryFiles(data: Json, user: Option<Json>, now: int)
    requires !SentByAi(data)
    ensures Receive(data, user, now).Incoming? ==> Receive(data, user, now).delta == None
  {
  }

  /** An AI reply carrying files, from the room, is appended and merged. */
  lemma AiFileTreeReplyIsMerged(files: map<string, Json>, me: string, now: int)
    requires files != map[]
    requires me != "AI"
    ensures var user := Some(JObject(map["email" := JString(me)]));
            var sender := JObject(map["_id" := JString(AiSenderId), "email" := JString("AI")]);
            var data := JObject(map["sender" := sender,
                                    "message" := JObject(map["text" := JString("done"), "FileTree" := JObject(files)])]);
            Receive(data, user, now).Incoming? && Receive(data, user, now).delta == Some(JObject(files))
  {
    var user := Some(JObject(map["email" := JString(me)]));
    var sender := JObject(map["_id" := JString(AiSenderId), "email" := JString("AI")]);
    var message := JObject(map["text" := JString("done"), "FileTree" := JObject(files)]);
    var data := JObject(map["sender" := sender, "message" := message]);
    assert Member(Some(data), "sender") == Some(sender);
    assert Member(Some(sender), "email") == Some(JString("AI"));
    assert Member(user, "email") == Some(JString(me));
    assert Member(Some(sender), "_id") == Some(JString(AiSenderId));
    assert Member(Some(data), "message") == Some(message);
    assert Member(Some(message), "FileTree") == Some(JObject(files));
  }

  /** A user's own message relayed back to one of their screens is recognised by its email and not shown again. */
  lemma OwnMessageIgnored(text: string, email: string, user: Json, sentAt: int, now: int)
    requires user.JObject? && Member(Some(user), "email") == Some(JString(email))
    ensures Receive(Outgoing(text, user, sentAt), Some(user), now) == OwnEcho
  {
    var data := Outgoing(text, user, sentAt);
    assert Member(Some(data), "sender") == Some(user);
  }

  /** One request to `PUT /projects/update-fileTree`. */
  datatype SaveRequest = SaveRequest(projectId: string, fileTree: FileTree)

  /** The outgoing chat message of `send`. */
  function Outgoing(text: string, user: Json, now: int): (r: Json)
    ensures Member(Some(r), "message") == Some(JString(text)) && Member(Some(r), "sender") == Some(user)
    ensures Member(Some(r), "type") == Some(JString("outgoing")) && Member(Some(r), "timestamp") == Some(JNumber(now))
  {
    JObject(map["message" := JString(text), "sender" := user, "type" := JString("outgoing"), "timestamp" := JNumber(now)])
  }

  /** The text the editor shows: `fileTree[currentFile]?.content || ''`, and no editor without a current file. */
  function EditorText(tree: FileTree, current: Option<string>): (r: Option<Json>)
    ensures r.None? <==> current.None? || current.value == ""
    ensures r.Some? && current.value in tree && Truthy(Some(tree[current.value].content)) ==> r.value == tree[current.value].content
    ensures r.Some? && current.value in tree && !Truthy(Some(tree[current.value].content)) ==> r.value == JString("")
    ensures r.Some? && current.value !in tree ==> r.value == JString("")
  {
    if current.None? || current.value == "" then None
    else if current.value in tree then Some(Or(Some(tree[current.value].content), JString("")))
    else Some(JString(""))
  }

  /** `!currentFile`: no file is selected (null or the empty name). */
  predicate NoCurrentFile(current: Option<string>)
  {
    current.None? || current.value == ""
  }

  /** Open tabs are distinct files of the tree, and the current file, when there is one, is in the tree. */
  ghost predicate EditorConsistent(tree: FileTree, tabs: seq<string>, current: Option<string>)
  {
    && NoDuplicates(tabs)
    && (forall f :: f in tabs ==> f in tree)
    && (current.Some? ==> current.value in tree)
  }

  /** A scheduled save carries a non-empty tree, and a save in progress has a request outstanding. */
  ghost predicate SaveStateConsistent(pending: Option<FileTree>, saving: bool, inFlight: nat)
  {
    && (pending.Some? ==> |pending.value| > 0)
    && (saving ==> inFlight > 0)
  }

  class ProjectScreen {
    /** `project._id` once the project is loaded. */
    var projectId: Option<string>
    /** The signed-in user of the user context. */
    var user: Option<Json>
    var fileTree: FileTree
    var currentFile: Option<string>
    var openFiles: seq<string>
    var messages: seq<Json>
    /** The chat input's text. */
    var draft: string
    /** The armed debounce timer and the tree it will save. */
    var pendingSave: Option<FileTree>
    var isSaving: bool
    /** Save requests sent and not yet settled. */
    var inFlight: nat
    var lastSaved: Option<string>
    /** Every save request sent, in order. */
    var saveRequests: seq<SaveRequest>
    /** Every `project-message` emitted on the socket, in order. */
    var sent: seq<Json>
    /** Every snapshot mounted into the sandbox, in order. */
    var mounts: seq<map<string, Json>>

    /**
     * Tabs are distinct files of the tree, the current file is one of the tree's, a pending save holds a
     * non-empty tree, and the save indicator is on only while a request is in flight.
     */
    ghost predicate Valid()
      reads this
    {
      && EditorConsistent(fileTree, openFiles, currentFile)
      && SaveStateConsistent(pendingSave, isSaving, inFlight)
    }

    /** The screen after the project and its stored tree have loaded. */
    constructor (projectId: Option<string>, user: Option<Json>, tree: FileTree)
      ensures Valid()
      ensures this.projectId == projectId && this.user == user && fileTree == tree
      ensures currentFile == None && openFiles == [] && messages == [] && draft == ""
      ensures pendingSave == None && !isSaving && inFlight == 0 && lastSaved == None
      ensures saveRequests == [] && sent == [] && mounts == []
    {
      this.projectId := projectId;
      this.user := user;
      fileTree := tree;
      currentFile := None;
      openFiles := [];
      messages := [];
      draft := "";
      pendingSave := None;
      isSaving := false;
      inFlight := 0;
      lastSaved := None;
      saveRequests := [];
      sent := [];
      mounts := [];
    }

    /**
     * `saveFileTree(ft)`: no request without a project or for an empty tree; otherwise the save indicator
     * turns on and one request carrying the whole tree is sent.
     */
    method SaveFileTree(ft: FileTree) returns (requested: bool)
      requires Valid()
      modifies this
      ensures Valid()
      ensures requested <==> old(projectId).Some? && |ft| > 0
      ensures requested ==> isSaving && inFlight == old(inFlight) + 1 &&
                            saveRequests == old(saveRequests) + [SaveRequest(old(projectId).value, ft)]
      ensures !requested ==> isSaving == old(isSaving) && inFlight == old(inFlight) && saveRequests == old(saveRequests)
      ensures unchanged(this`projectId, this`user, this`fileTree)
      ensures unchanged(this`currentFile, this`openFiles, this`messages)
      ensures unchanged(this`draft, this`pendingSave, this`lastSaved)
      ensures unchanged(this`sent, this`mounts)
    {
      if projectId.None? || |ft| == 0 {
        return false;
      }
      isSaving := true;
      inFlight := inFlight + 1;
      saveRequests := saveRequests + [SaveRequest(projectId.value, ft)];
      return true;
    }

    /**
     * A save request settles: the indicator turns off on every path, and the time shown as last saved
     * changes only on success.
     */
    method FinishSave(succeeded: bool, now: string)
      requires Valid() && inFlight > 0
      modifies this
      ensures Valid()
      ensures !isSaving && inFlight == old(inFlight) - 1
      ensures lastSaved == if succeeded then Some(now) else old(lastSaved)
      ensures unchanged(this`projectId, this`user, this`fileTree)
      ensures unchanged(this`currentFile, this`openFiles, this`messages)
      ensures unchanged(this`draft, this`pendingSave)
      ensures unchanged(this`saveRequests, this`sent, this`mounts)
    {
      isSaving := false;
      inFlight := inFlight - 1;
      if succeeded {
        lastSaved := Some(now);
      }
    }

    /**
     * `handleFileChange`: without a current file nothing happens; otherwise only the current file's entry
     * is replaced and the debounce timer is re-armed with the new tree, cancelling the previous one.
     */
    method HandleFileChange(newContent: string)
      requires Valid()
      modifies this
      ensures Valid()
      ensures NoCurrentFile(old(currentFile)) ==> fileTree == old(fileTree) && pendingSave == old(pendingSave)
      ensures !NoCurrentFile(old(currentFile)) ==>
                fileTree == old(fileTree)[old(currentFile).value := FileRecord(JString(newContent))] &&
                pendingSave == Some(fileTree)
      ensures unchanged(this`projectId, this`user)
      ensures unchanged(this`currentFile, this`openFiles, this`messages)
      ensures unchanged(this`draft, this`isSaving, this`inFlight, this`lastSaved)
      ensures unchanged(this`saveRequests, this`sent, this`mounts)
    {
      if NoCurrentFile(currentFile) {
        return;
      }
      fileTree := fileTree[currentFile.value := FileRecord(JString(newContent))];
      pendingSave := Some(fileTree);
    }

    /** The debounce timer fires after a second without edits: it disarms and saves the tree it holds. */
    method FireSaveTimer() returns (requested: bool)
      requires Valid() && pendingSave.Some?
      modifies this
      ensures Valid()
      ensures pendingSave == None
      ensures requested <==> old(projectId).Some?
      ensures requested ==> isSaving && inFlight == old(inFlight) + 1 &&
                            saveRequests == old(saveRequests) + [SaveRequest(old(projectId).value, old(pendingSave).value)]
      ensures !requested ==> isSaving == old(isSaving) && inFlight == old(inFlight) && saveRequests == old(saveRequests)
      ensures unchanged(this`projectId, this`user, this`fileTree)
      ensures unchanged(this`currentFile, this`openFiles, this`messages)
      ensures unchanged(this`draft, this`lastSaved, this`sent, this`mounts)
    {
      var ft := pendingSave.value;
      pendingSave := None;
      requested := SaveFileTree(ft);
    }

    /** Ctrl+S: the pending timer is cancelled and the current tree is saved at once. */
    method CtrlS() returns (requested: bool)
      requires Valid()
      modifies this
      ensures Valid()
      ensures pendingSave == None
      ensures requested <==> old(projectId).Some? && |old(fileTree)| > 0
      ensures requested ==> isSaving && inFlight == old(inFlight) + 1 &&
                            saveRequests == old(saveRequests) + [SaveRequest(old(projectId).value, old(fileTree))]
      ensures !requested ==> isSaving == old(isSaving) && inFlight == old(inFlight) && saveRequests == old(saveRequests)
      ensures unchanged(this`projectId, this`user, this`fileTree)
      ensures unchanged(this`currentFile, this`openFiles, this`messages)
      ensures unchanged(this`draft, this`lastSaved, this`sent, this`mounts)
    {
      pendingSave := None;
      requested := SaveFileTree(fileTree);
    }

    /** Leaving the screen clears the pending timer, so no save follows. */
    method Unmount()
      requires Valid()
      modifies this
      ensures Valid()
      ensures pendingSave == None
      ensures unchanged(this`projectId, this`user, this`fileTree)
      ensures unchanged(this`currentFile, this`openFiles, this`messages)
      ensures unchanged(this`draft, this`isSaving, this`inFlight, this`lastSaved)
      ensures unchanged(this`saveRequests, this`sent, this`mounts)
    {
      pendingSave := None;
    }

    /** A file of the tree is chosen in the file list: it becomes current and is opened as a tab. */
    method OpenFile(file: string)
      requires Valid() && file in fileTree
      modifies this
      ensures Valid()
      ensures currentFile == Some(file) && openFiles == OpenTab(old(openFiles), file)
      ensures unchanged(this`projectId, this`user, this`fileTree, this`messages)
      ensures unchanged(this`draft, this`pendingSave, this`isSaving)
      ensures unchanged(this`inFlight, this`lastSaved)
      ensures unchanged(this`saveRequests, this`sent, this`mounts)
    {
      currentFile := Some(file);
      openFiles := OpenTab(openFiles, file);
    }

    /** An open tab is clicked: it becomes current. */
    method SelectTab(file: string)
      requires Valid() && file in openFiles
      modifies this
      ensures Valid()
      ensures currentFile == Some(file) && openFiles == old(openFiles)
      ensures unchanged(this`projectId, this`user, this`fileTree, this`messages)
      ensures unchanged(this`draft, this`pendingSave, this`isSaving)
      ensures unchanged(this`inFlight, this`lastSaved)
      ensures unchanged(this`saveRequests, this`sent, this`mounts)
    {
      currentFile := Some(file);
    }

    /** A tab is closed: it leaves the list and, if it was current, the first remaining tab (or none) is current. */
    method CloseFile(file: string)
      requires Valid() && file in openFiles
      modifies this
      ensures Valid()
      ensures openFiles == CloseTab(old(openFiles), file)
      ensures currentFile == CurrentAfterClose(old(currentFile), old(openFiles), file)
      ensures unchanged(this`projectId, this`user, this`fileTree, this`messages)
      ensures unchanged(this`draft, this`pendingSave, this`isSaving)
      ensures unchanged(this`inFlight, this`lastSaved)
      ensures unchanged(this`saveRequests, this`sent, this`mounts)
    {
      CloseTabKeepsNoDuplicates(openFiles, file);
      var remaining := CloseTab(openFiles, file);
      currentFile := CurrentAfterClose(currentFile, openFiles, file);
      openFiles := remaining;
    }

    /** The chat input changes. */
    method EditDraft(text: string)
      requires Valid()
      modifies this
      ensures Valid()
      ensures draft == text
      ensures unchanged(this`projectId, this`user, this`fileTree)
      ensures unchanged(this`currentFile, this`openFiles, this`messages)
      ensures unchanged(this`pendingSave, this`isSaving, this`inFlight)
      ensures unchanged(this`lastSaved, this`saveRequests, this`sent, this`mounts)
    {
      draft := text;
    }

    /**
     * `send`: nothing without a user or when the input is blank; otherwise the trimmed text is appended
     * to the history as an outgoing message, emitted on the socket, and the input is cleared.
     */
    method Send(now: int) returns (emitted: bool)
      requires Valid()
      modifies this
      ensures Valid()
      ensures emitted <==> Truthy(old(user)) && Trim(old(draft)) != ""
      ensures emitted ==> messages == old(messages) + [Outgoing(Trim(old(draft)), old(user).value, now)] &&
                          sent == old(sent) + [Outgoing(Trim(old(draft)), old(user).value, now)] && draft == ""
      ensures !emitted ==> messages == old(messages) && sent == old(sent) && draft == old(draft)
      ensures unchanged(this`projectId, this`user, this`fileTree)
      ensures unchanged(this`currentFile, this`openFiles)
      ensures unchanged(this`pendingSave, this`isSaving, this`inFlight)
      ensures unchanged(this`lastSaved, this`saveRequests, this`mounts)
    {
      var text := Trim(draft);
      if !Truthy(user) || text == "" {
        return false;
      }
      Post(Outgoing(text, user.value, now));
      return true;
    }

    /** The second half of `send`: the message joins the history, goes out on the socket, and the input clears. */
    method Post(message: Json)
      requires Valid()
      modifies this
      ensures Valid()
      ensures messages == old(messages) + [message] && sent == old(sent) + [message] && draft == ""
      ensures unchanged(this`projectId, this`user, this`fileTree)
      ensures unchanged(this`currentFile, this`openFiles)
      ensures unchanged(this`pendingSave, this`isSaving, this`inFlight)
      ensures unchanged(this`lastSaved, this`saveRequests, this`mounts)
    {
      messages := messages + [message];
      sent := sent + [message];
      draft := "";
    }

    /**
     * The `project-message` listener: the user's own echo and a message that throws leave everything as
     * it was; any other message is appended once, and an AI file-tree delta is merged into the tree
     * (without scheduling a save).
     */
    method OnSocketMessage(data: Json, now: int) returns (receipt: Receipt)
      requires Valid()
      modifies this
      ensures Valid()
      ensures receipt == Receive(data, old(user), now)
      ensures receipt.Incoming? ==> messages == old(messages) + [receipt.entry]
      ensures !receipt.Incoming? ==> messages == old(messages)
      ensures fileTree == if receipt.Incoming? && receipt.delta.Some? then MergeAiDelta(old(fileTree), receipt.delta.value)
                          else old(fileTree)
      ensures unchanged(this`projectId, this`user)
      ensures unchanged(this`currentFile, this`openFiles, this`draft)
      ensures unchanged(this`pendingSave, this`isSaving, this`inFlight)
      ensures unchanged(this`lastSaved, this`saveRequests, this`sent, this`mounts)
    {
      receipt := Receive(data, user, now);
      if receipt.Incoming? {
        if receipt.delta.Some? {
          MergeKeepsFiles(fileTree, receipt.delta.value);
          fileTree := MergeAiDelta(fileTree, receipt.delta.value);
        }
        messages := messages + [receipt.entry];
      }
    }

    /** The mount effect: with a ready sandbox and a non-empty tree, the mountable snapshot is mounted. */
    method MountFiles(sandboxReady: bool) returns (mounted: bool)
      requires Valid()
      modifies this
      ensures Valid()
      ensures mounted <==> sandboxReady && |old(fileTree)| > 0
      ensures mounted ==> mounts == old(mounts) + [ToMountable(old(fileTree))]
      ensures !mounted ==> mounts == old(mounts)
      ensures unchanged(this`projectId, this`user, this`fileTree)
      ensures unchanged(this`currentFile, this`openFiles, this`messages)
      ensures unchanged(this`draft, this`pendingSave, this`isSaving)
      ensures unchanged(this`inFlight, this`lastSaved, this`saveRequests, this`sent)
    {
      if !sandboxReady || |fileTree| == 0 {
        return false;
      }
      var snapshot := MountableFiles(fileTree);
      mounts := mounts + [snapshot];
      return true;
    }
  }

  /**
   * Debounce coalescing: two edits of the current file followed by the timer send exactly one save
   * request, and it carries the last edit's content.
   */
  method EditsCoalesceIntoOneSave(screen: ProjectScreen, first: string, last: string)
    requires screen.Valid() && !NoCurrentFile(screen.currentFile) && screen.projectId.Some?
    modifies screen
    ensures screen.Valid() && screen.pendingSave == None
    ensures |screen.saveRequests| == |old(screen.saveRequests)| + 1
    ensures screen.saveRequests[..|old(screen.saveRequests)|] == old(screen.saveRequests)
    ensures var saved := screen.saveRequests[|screen.saveRequests| - 1].fileTree;
            saved == old(screen.fileTree)[old(screen.currentFile).value := FileRecord(JString(last))] &&
            saved[old(screen.currentFile).value] == FileRecord(JString(last))
  {
    screen.HandleFileChange(first);
    screen.HandleFileChange(last);
    var requested := screen.FireSaveTimer();
  }

  /** Ctrl+S after an edit saves the edited tree at once and leaves no timer to save it again. */
  method CtrlSFlushesPendingEdit(screen: ProjectScreen, content: string)
    requires screen.Valid() && !NoCurrentFile(screen.currentFile) && screen.projectId.Some?
    modifies screen
    ensures screen.Valid() && screen.pendingSave == None
    ensures screen.saveRequests == old(screen.saveRequests) +
              [SaveRequest(old(screen.projectId).value, old(screen.fileTree)[old(screen.currentFile).value := FileRecord(JString(content))])]
  {
    screen.HandleFileChange(content);
    var requested := screen.CtrlS();
  }
}
