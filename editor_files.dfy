/**
 * The pure helpers of the editor screen (frontend/src/screens/Project.jsx): the local file tree
 * `{path: {content}}`, the merge of an AI `FileTree` delta into it, the conversion to the mountable
 * `{path: {file: {contents}}}` shape, the open-tabs list, the language of a file name and the text a chat
 * message is shown with.
 */
module EditorFiles {
  import opened Wrappers
  import opened JsValues
  import opened Text
  import opened Sequences

  /** One entry of the local tree: `{content}`. */
  datatype FileRecord = FileRecord(content: Json)

  type FileTree = map<string, FileRecord>

  /** `newTree[filename]?.file?.contents || ''`: the content an AI delta entry contributes. */
  function DeltaContent(entry: Json): (r: Json)
    ensures Truthy(Member(Member(Some(entry), "file"), "contents")) ==> Some(r) == Member(Member(Some(entry), "file"), "contents")
    ensures !Truthy(Member(Member(Some(entry), "file"), "contents")) ==> r == JString("")
  {
    Or(Member(Member(Some(entry), "file"), "contents"), JString(""))
  }

  /** The keys `Object.keys(newTree)` yields for a delta that is an object. */
  function DeltaKeys(delta: Json): set<string>
  {
    if delta.JObject? then delta.fields.Keys else {}
  }

  /**
   * The `setFileTree` updater of `appendIncomingMessage`: `{...prev, ...{k: {content: ...}}}` for every key
   * of the delta. Keys of the delta overwrite, every other key keeps its entry.
   */
  function MergeAiDelta(prev: FileTree, delta: Json): (r: FileTree)
    ensures r.Keys == prev.Keys + DeltaKeys(delta)
    ensures forall k :: k in DeltaKeys(delta) ==> r[k] == FileRecord(DeltaContent(delta.fields[k]))
    ensures forall k :: k in prev && k !in DeltaKeys(delta) ==> r[k] == prev[k]
  {
    if delta.JObject? then prev + map k | k in delta.fields :: FileRecord(DeltaContent(delta.fields[k]))
    else prev
  }

  /** Applying the same delta twice is applying it once. */
  lemma MergeIdempotent(prev: FileTree, delta: Json)
    ensures MergeAiDelta(MergeAiDelta(prev, delta), delta) == MergeAiDelta(prev, delta)
  {
  }

  /** A merge never drops a file. */
  lemma MergeKeepsFiles(prev: FileTree, delta: Json)
    ensures prev.Keys <= MergeAiDelta(prev, delta).Keys
  {
  }

  /** The mountable form of one file: `{file: {contents: content || ''}}`. */
  function MountEntry(content: Json): Json
  {
    JObject(map["file" := JObject(map["contents" := Or(Some(content), JString(""))])])
  }

  /** The `mountableFiles` object built from the local tree. */
  function ToMountable(tree: FileTree): (r: map<string, Json>)
    ensures r.Keys == tree.Keys
  {
    map k | k in tree :: MountEntry(tree[k].content)
  }

  /** The `reduce` that builds `mountableFiles`, writing one key of its accumulator per entry. */
  method MountableFiles(tree: FileTree) returns (acc: map<string, Json>)
    ensures acc == ToMountable(tree)
  {
    acc := map[];
    var rest := tree.Keys;
    while rest != {}
      invariant rest <= tree.Keys
      invariant acc.Keys == tree.Keys - rest
      invariant forall k :: k in acc ==> k in tree && acc[k] == MountEntry(tree[k].content)
      decreases rest
    {
      var k :| k in rest;
      acc := acc[k := MountEntry(tree[k].content)];
      rest := rest - {k};
    }
    assert acc.Keys == ToMountable(tree).Keys;
  }

  /** A content the round trip keeps as it is: truthy, or the empty string. */
  predicate NormalContent(c: Json)
  {
    Truthy(Some(c)) || c == JString("")
  }

  /** Every falsy content replaced by the empty string. */
  function Normalized(tree: FileTree): FileTree
  {
    map k | k in tree :: FileRecord(Or(Some(tree[k].content), JString("")))
  }

  /** Reading a mounted snapshot back with the mapping of the AI merge gives the tree with falsy contents as ''. */
  lemma MountRoundTrip(tree: FileTree)
    ensures MergeAiDelta(map[], JObject(ToMountable(tree))) == Normalized(tree)
  {
    var mounted := ToMountable(tree);
    var back := MergeAiDelta(map[], JObject(mounted));
    forall k | k in tree
      ensures back[k] == Normalized(tree)[k]
    {
      MountEntryReadBack(tree[k].content);
    }
  }

  /** The AI merge reads one mounted entry back as its content, with a falsy content as ''. */
  lemma MountEntryReadBack(content: Json)
    ensures DeltaContent(MountEntry(content)) == Or(Some(content), JString(""))
  {
    var c := Or(Some(content), JString(""));
    assert Member(Member(Some(MountEntry(content)), "file"), "contents") == Some(c);
  }

  /** The round trip recovers the tree exactly when every content is truthy or ''. */
  lemma MountRoundTripExact(tree: FileTree)
    ensures MergeAiDelta(map[], JObject(ToMountable(tree))) == tree <==> forall k :: k in tree ==> NormalContent(tree[k].content)
  {
    MountRoundTrip(tree);
    NormalizedFixesNormalTrees(tree);
  }

  /** Normalizing changes nothing exactly when every content is already normal. */
  lemma NormalizedFixesNormalTrees(tree: FileTree)
    ensures Normalized(tree) == tree <==> forall k :: k in tree ==> NormalContent(tree[k].content)
  {
    if forall k :: k in tree ==> NormalContent(tree[k].content) {
      assert Normalized(tree) == tree;
    } else {
      var k :| k in tree && !NormalContent(tree[k].content);
      assert Normalized(tree)[k] != tree[k];
    }
  }

  /** `prev => !prev.includes(file) ? [...prev, file] : prev`. */
  function OpenTab(tabs: seq<string>, file: string): (r: seq<string>)
    ensures file in r && forall f :: f in r <==> f in tabs || f == file
    ensures file in tabs ==> r == tabs
    ensures file !in tabs ==> r == tabs + [file]
    ensures NoDuplicates(tabs) ==> NoDuplicates(r)
  {
    if file in tabs then tabs else tabs + [file]
  }

  /** `tabs.filter(f => f !== file)`. */
  function CloseTab(tabs: seq<string>, file: string): (r: seq<string>)
    ensures file !in r && forall f :: f in r <==> f in tabs && f != file
    ensures |r| <= |tabs|
    ensures tabs != [] && tabs[0] != file ==> r != [] && r[0] == tabs[0]
  {
    if tabs == [] then []
    else if tabs[0] == file then CloseTab(tabs[1..], file)
    else [tabs[0]] + CloseTab(tabs[1..], file)
  }

  /** `filter` works piece by piece: closing a tab in two runs of tabs is closing it in each, kept in order. */
  lemma {:induction false} CloseTabOfConcat(front: seq<string>, back: seq<string>, file: string)
    ensures CloseTab(front + back, file) == CloseTab(front, file) + CloseTab(back, file)
  {
    if front == [] {
      assert front + back == back;
    } else {
      assert (front + back)[1..] == front[1..] + back;
      CloseTabOfConcat(front[1..], back, file);
    }
  }

  /** A single tab is kept exactly when it is not the closed file. */
  lemma CloseTabOfOne(tab: string, file: string)
    ensures CloseTab([tab], file) == if tab == file then [] else [tab]
  {
    assert [tab][1..] == [];
  }

  /** Closing a tab keeps the list free of duplicates. */
  lemma {:induction false} CloseTabKeepsNoDuplicates(tabs: seq<string>, file: string)
    requires NoDuplicates(tabs)
    ensures NoDuplicates(CloseTab(tabs, file))
  {
    if tabs != [] {
      assert NoDuplicates(tabs[1..]) by {
        forall i, j | 0 <= i < j < |tabs[1..]|
          ensures tabs[1..][i] != tabs[1..][j]
        {
          assert tabs[1..][i] == tabs[i + 1] && tabs[1..][j] == tabs[j + 1];
        }
      }
      CloseTabKeepsNoDuplicates(tabs[1..], file);
      if tabs[0] != file {
        var rest := CloseTab(tabs[1..], file);
        assert tabs[0] !in tabs[1..] by {
          forall j | 0 <= j < |tabs[1..]|
            ensures tabs[1..][j] != tabs[0]
          {
            assert tabs[1..][j] == tabs[j + 1];
          }
        }
        assert tabs[0] !in rest;
        forall i, j | 0 <= i < j < |[tabs[0]] + rest|
          ensures ([tabs[0]] + rest)[i] != ([tabs[0]] + rest)[j]
        {
          if i == 0 {
            assert ([tabs[0]] + rest)[j] == rest[j - 1];
          } else {
            assert ([tabs[0]] + rest)[i] == rest[i - 1] && ([tabs[0]] + rest)[j] == rest[j - 1];
          }
        }
      }
    }
  }

  /** Closing a tab that is not open changes nothing. */
  lemma {:induction false} CloseAbsentTab(tabs: seq<string>, file: string)
    requires file !in tabs
    ensures CloseTab(tabs, file) == tabs
  {
    if tabs != [] {
      CloseAbsentTab(tabs[1..], file);
    }
  }

  /** Opening a file and closing it again restores a list that did not hold it. */
  lemma OpenThenClose(tabs: seq<string>, file: string)
    requires file !in tabs
    ensures CloseTab(OpenTab(tabs, file), file) == tabs
  {
    CloseTabAppend(tabs, file);
    CloseAbsentTab(tabs, file);
  }

  lemma {:induction false} CloseTabAppend(tabs: seq<string>, file: string)
    ensures CloseTab(tabs + [file], file) == CloseTab(tabs, file)
  {
    if tabs == [] {
      assert tabs + [file] == [file];
      assert [file][1..] == [];
    } else {
      assert (tabs + [file])[1..] == tabs[1..] + [file];
      CloseTabAppend(tabs[1..], file);
    }
  }

  /** The current file after closing `file`: the first remaining tab, or none, if it was current. */
  function CurrentAfterClose(current: Option<string>, tabs: seq<string>, file: string): (r: Option<string>)
    ensures current != Some(file) ==> r == current
    ensures current == Some(file) ==> (r.None? <==> CloseTab(tabs, file) == [])
    ensures current == Some(file) && r.Some? ==> r.value == CloseTab(tabs, file)[0] && r.value != file
  {
    if current == Some(file) then
      var remaining := CloseTab(tabs, file);
      if |remaining| > 0 then Some(remaining[0]) else None
    else current
  }

  /** The suffix table of `getLanguageFromFileName`, in its order. */
  const LanguageTable: seq<(string, string)> := [
    (".js", "javascript"), (".jsx", "javascript"), (".ts", "typescript"), (".tsx", "typescript"),
    (".json", "json"), (".html", "html"), (".css", "css"), (".scss", "scss"), (".sass", "scss"),
    (".py", "python"), (".md", "markdown"), (".xml", "xml"), (".yml", "yaml"), (".yaml", "yaml")]

  /** The language names the editor is given: every language of the table, and 'plaintext'. */
  const Languages: set<string> :=
    {"javascript", "typescript", "json", "html", "css", "scss", "python", "markdown", "xml", "yaml", "plaintext"}

  /** `getLanguageFromFileName`, test by test as the source writes it. */
  function LanguageOf(filename: string): (r: string)
    ensures r in Languages
  {
    if EndsWith(filename, ".js") || EndsWith(filename, ".jsx") then "javascript"
    else if EndsWith(filename, ".ts") || EndsWith(filename, ".tsx") then "typescript"
    else if EndsWith(filename, ".json") then "json"
    else if EndsWith(filename, ".html") then "html"
    else if EndsWith(filename, ".css") then "css"
    else if EndsWith(filename, ".scss") || EndsWith(filename, ".sass") then "scss"
    else if EndsWith(filename, ".py") then "python"
    else if EndsWith(filename, ".md") then "markdown"
    else if EndsWith(filename, ".xml") then "xml"
    else if EndsWith(filename, ".yml") || EndsWith(filename, ".yaml") then "yaml"
    else "plaintext"
  }

  /** Two suffixes of one name: the shorter ends the longer. */
  lemma CommonSuffix(name: string, a: string, b: string)
    ensures EndsWith(name, a) && EndsWith(name, b) && |a| <= |b| ==> EndsWith(b, a)
  {
    if EndsWith(name, a) && EndsWith(name, b) && |a| <= |b| {
      assert b[|b| - |a|..] == name[|name| - |a|..];
    }
  }

  /** An extension: a dot followed by text without a dot. */
  predicate Extension(s: string)
  {
    |s| > 0 && s[0] == '.' && forall m :: 1 <= m < |s| ==> s[m] != '.'
  }

  /** One extension ends another only when they are the same. */
  lemma ExtensionSuffixIsEqual(a: string, b: string)
    requires Extension(a) && Extension(b)
    ensures EndsWith(b, a) ==> a == b
  {
    if EndsWith(b, a) {
      var k := |b| - |a|;
      assert b[k..][0] == b[k];
      assert k == 0;
      assert b[0..] == b;
    }
  }

  /** The language of the first table entry from index `k` on whose suffix ends the name, else 'plaintext'. */
  function FirstMatchFrom(filename: string, k: nat): string
    requires k <= |LanguageTable|
    decreases |LanguageTable| - k
  {
    if k == |LanguageTable| then "plaintext"
    else if EndsWith(filename, LanguageTable[k].0) then LanguageTable[k].1
    else FirstMatchFrom(filename, k + 1)
  }

  /** The last seven tests of the chain are the table read from its eighth entry. */
  lemma LanguageTailIsFirstMatch(filename: string)
    ensures FirstMatchFrom(filename, 7) ==
            if EndsWith(filename, ".scss") || EndsWith(filename, ".sass") then "scss"
            else if EndsWith(filename, ".py") then "python"
            else if EndsWith(filename, ".md") then "markdown"
            else if EndsWith(filename, ".xml") then "xml"
            else if EndsWith(filename, ".yml") || EndsWith(filename, ".yaml") then "yaml"
            else "plaintext"
  {
    assert FirstMatchFrom(filename, 13) == (if EndsWith(filename, LanguageTable[13].0) then LanguageTable[13].1 else FirstMatchFrom(filename, 14));
    assert FirstMatchFrom(filename, 12) == (if EndsWith(filename, LanguageTable[12].0) then LanguageTable[12].1 else FirstMatchFrom(filename, 13));
    assert FirstMatchFrom(filename, 11) == (if EndsWith(filename, LanguageTable[11].0) then LanguageTable[11].1 else FirstMatchFrom(filename, 12));
    assert FirstMatchFrom(filename, 10) == (if EndsWith(filename, LanguageTable[10].0) then LanguageTable[10].1 else FirstMatchFrom(filename, 11));
    assert FirstMatchFrom(filename, 9) == (if EndsWith(filename, LanguageTable[9].0) then LanguageTable[9].1 else FirstMatchFrom(filename, 10));
    assert FirstMatchFrom(filename, 8) == (if EndsWith(filename, LanguageTable[8].0) then LanguageTable[8].1 else FirstMatchFrom(filename, 9));
    assert FirstMatchFrom(filename, 7) == (if EndsWith(filename, LanguageTable[7].0) then LanguageTable[7].1 else FirstMatchFrom(filename, 8));
  }

  /** The chain of tests is the table read in order. */
  lemma LanguageIsFirstMatch(filename: string)
    ensures LanguageOf(filename) == FirstMatchFrom(filename, 0)
  {
    LanguageTailIsFirstMatch(filename);
    assert FirstMatchFrom(filename, 6) == (if EndsWith(filename, LanguageTable[6].0) then LanguageTable[6].1 else FirstMatchFrom(filename, 7));
    assert FirstMatchFrom(filename, 5) == (if EndsWith(filename, LanguageTable[5].0) then LanguageTable[5].1 else FirstMatchFrom(filename, 6));
    assert FirstMatchFrom(filename, 4) == (if EndsWith(filename, LanguageTable[4].0) then LanguageTable[4].1 else FirstMatchFrom(filename, 5));
    assert FirstMatchFrom(filename, 3) == (if EndsWith(filename, LanguageTable[3].0) then LanguageTable[3].1 else FirstMatchFrom(filename, 4));
    assert FirstMatchFrom(filename, 2) == (if EndsWith(filename, LanguageTable[2].0) then LanguageTable[2].1 else FirstMatchFrom(filename, 3));
    assert FirstMatchFrom(filename, 1) == (if EndsWith(filename, LanguageTable[1].0) then LanguageTable[1].1 else FirstMatchFrom(filename, 2));
    assert FirstMatchFrom(filename, 0) == (if EndsWith(filename, LanguageTable[0].0) then LanguageTable[0].1 else FirstMatchFrom(filename, 1));
  }

  /** Every suffix of the table is an extension, and no two entries have the same one. */
  lemma TableIsExtensions()
    ensures forall i :: 0 <= i < |LanguageTable| ==> Extension(LanguageTable[i].0)
    ensures forall i, j :: 0 <= i < j < |LanguageTable| ==> LanguageTable[i].0 != LanguageTable[j].0
  {
  }

  lemma {:induction false} FirstMatchOfUnique(filename: string, k: nat, i: nat)
    requires k <= i < |LanguageTable| && EndsWith(filename, LanguageTable[i].0)
    requires forall j :: k <= j < i ==> !EndsWith(filename, LanguageTable[j].0)
    ensures FirstMatchFrom(filename, k) == LanguageTable[i].1
    decreases i - k
  {
    if k < i {
      FirstMatchOfUnique(filename, k + 1, i);
    }
  }

  /**
   * A name ending with a listed suffix gets that suffix's language: the suffixes are distinct extensions,
   * so none ends another and the order of the tests never hides an entry.
   */
  lemma {:induction false} LanguageOfListedSuffix(filename: string, i: nat)
    requires i < |LanguageTable| && EndsWith(filename, LanguageTable[i].0)
    ensures LanguageOf(filename) == LanguageTable[i].1
  {
    TableIsExtensions();
    forall j | 0 <= j < i
      ensures !EndsWith(filename, LanguageTable[j].0)
    {
      var a, b := LanguageTable[i].0, LanguageTable[j].0;
      CommonSuffix(filename, a, b);
      CommonSuffix(filename, b, a);
      ExtensionSuffixIsEqual(a, b);
      ExtensionSuffixIsEqual(b, a);
    }
    FirstMatchOfUnique(filename, 0, i);
    LanguageIsFirstMatch(filename);
  }

  /** A name with no listed suffix is plain text. */
  lemma UnlistedIsPlaintext(filename: string)
    requires forall i :: 0 <= i < |LanguageTable| ==> !EndsWith(filename, LanguageTable[i].0)
    ensures LanguageOf(filename) == "plaintext"
  {
    assert !EndsWith(filename, LanguageTable[0].0);
    assert !EndsWith(filename, LanguageTable[1].0);
    assert !EndsWith(filename, LanguageTable[2].0);
    assert !EndsWith(filename, LanguageTable[3].0);
    assert !EndsWith(filename, LanguageTable[4].0);
    assert !EndsWith(filename, LanguageTable[5].0);
    assert !EndsWith(filename, LanguageTable[6].0);
    assert !EndsWith(filename, LanguageTable[7].0);
    assert !EndsWith(filename, LanguageTable[8].0);
    assert !EndsWith(filename, LanguageTable[9].0);
    assert !EndsWith(filename, LanguageTable[10].0);
    assert !EndsWith(filename, LanguageTable[11].0);
    assert !EndsWith(filename, LanguageTable[12].0);
    assert !EndsWith(filename, LanguageTable[13].0);
  }

  /** `.json` files are JSON and `.tsx` files TypeScript. */
  lemma LanguageExamples()
    ensures LanguageOf("package.json") == "json"
    ensures LanguageOf("App.tsx") == "typescript"
  {
    LanguageOfListedSuffix("package.json", 4);
    LanguageOfListedSuffix("App.tsx", 3);
  }

  /** The id of the synthetic sender of AI answers. */
  const AiSenderId := "ai"

  /** `msg.sender._id === 'ai'`. */
  predicate SentByAi(msg: Json)
  {
    StrictEquals(Member(Member(Some(msg), "sender"), "_id"), Some(JString(AiSenderId)))
  }

  /**
   * `extractMessage`: the text a chat message is shown with. `Failure` is the TypeError of reading a
   * property of `null`/`undefined`; `parse` is `JSON.parse` (`None` when it throws) and `stringify` is
   * `JSON.stringify` (`None` for `undefined`).
   */
  function ExtractMessage(msg: Json, parse: string -> Option<Json>, stringify: Option<Json> -> Option<string>)
    : (r: Result<Option<Json>, string>)
    ensures r.Failure? <==> (AccessThrows(Member(Some(msg), "sender")) ||
                             (SentByAi(msg) && Member(Some(msg), "message") == Some(JNull)))
    ensures !AccessThrows(Member(Some(msg), "sender")) && SentByAi(msg) &&
            TypeofObject(Member(Some(msg), "message")) && Truthy(Member(Member(Some(msg), "message"), "text")) ==>
              r == Success(Member(Member(Some(msg), "message"), "text"))
    ensures !AccessThrows(Member(Some(msg), "sender")) && SentByAi(msg) &&
            Member(Some(msg), "message").Some? && Member(Some(msg), "message").value.JString? ==>
              var p := parse(Member(Some(msg), "message").value.s);
              r == Success(if p.Some? && !p.value.JNull? && Truthy(Member(p, "text")) then Member(p, "text")
                           else Member(Some(msg), "message"))
    ensures !AccessThrows(Member(Some(msg), "sender")) && !SentByAi(msg) &&
            Member(Some(msg), "message").Some? && Member(Some(msg), "message").value.JString? ==>
              r == Success(Member(Some(msg), "message"))
    ensures !AccessThrows(Member(Some(msg), "sender")) &&
            !(Member(Some(msg), "message").Some? && Member(Some(msg), "message").value.JString?) &&
            !(SentByAi(msg) && TypeofObject(Member(Some(msg), "message")) &&
              (Member(Some(msg), "message") == Some(JNull) || Truthy(Member(Member(Some(msg), "message"), "text")))) ==>
              r == Success(if stringify(Member(Some(msg), "message")).Some?
                           then Some(JString(stringify(Member(Some(msg), "message")).value)) else None)
  {
    var sender := Member(Some(msg), "sender");
    var message := Member(Some(msg), "message");
    if AccessThrows(sender) then Failure("TypeError")
    else if SentByAi(msg) && TypeofObject(message) && message.value.JNull? then
      Failure("TypeError")
    else if SentByAi(msg) && TypeofObject(message) && Truthy(Member(message, "text")) then
      Success(Member(message, "text"))
    else if SentByAi(msg) && message.Some? && message.value.JString? then
      match parse(message.value.s)
      case Some(parsed) =>
        if parsed.JNull? then Success(message)
        else Success(Some(Or(Member(Some(parsed), "text"), message.value)))
      case None => Success(message)
    else if message.Some? && message.value.JString? then Success(message)
    else match stringify(message)
      case Some(text) => Success(Some(JString(text)))
      case None => Success(None)
  }

  /** An AI message whose `message` is a JSON string of an object with a truthy `text` shows that text. */
  lemma AiStringMessageShowsParsedText(msg: Json, parse: string -> Option<Json>, stringify: Option<Json> -> Option<string>)
    requires Member(Some(msg), "sender").Some? && !AccessThrows(Member(Some(msg), "sender"))
    requires Member(Member(Some(msg), "sender"), "_id") == Some(JString("ai"))
    requires Member(Some(msg), "message").Some? && Member(Some(msg), "message").value.JString?
    requires var p := parse(Member(Some(msg), "message").value.s); p.Some? && Truthy(Member(p, "text"))
    ensures ExtractMessage(msg, parse, stringify) ==
            Success(Member(parse(Member(Some(msg), "message").value.s), "text"))
  {
  }
}
