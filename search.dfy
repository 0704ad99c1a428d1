/** The Search page: the paragraph splitter and greedy chunk packer, the
    indexer that writes whole files and their chunks to the document store
    once per file, the buffer of selected results, its preview, and the
    transfer of the buffer to the chat as selected documents. */
module Search {
  import opened Values
  import opened Text
  import opened Formatter
  import opened Documents
  import opened Models
  import opened Chat

  /** Files shorter than this are indexed whole, without chunks. */
  const WholeFileLimit: nat := 4000

  /** The chunk size the indexer packs paragraphs to. */
  const MaxChunkSize: int := 4000

  /** What joins two paragraphs inside a chunk. */
  const ParagraphSep: string := "\n\n"

  /** What a snippet's name carries in the preview and in the chat. */
  const SnippetSuffix: string := " (snippet)"

  /** One document written to the store: a chunk (`isSnippet`, with its
      index) or a whole file. */
  datatype IndexedDoc = IndexedDoc(content: string, filePath: string, fileName: string,
                                   chunkIndex: Option<int>, isSnippet: bool)

  /** One selected search result. The selection time is an opaque clock reading. */
  datatype SearchItem = SearchItem(path: string, content: string, timestamp: int, isSnippet: bool)

  // ---------------------------------------------------------------------
  // Paragraphs: `re.split(r'\n\s*\n', text)`

  /** The first index at or after `k` that is not whitespace, or |s|. */
  function SpaceRunEnd(s: string, k: nat): (e: nat)
    requires k <= |s|
    ensures k <= e <= |s|
    ensures forall j :: k <= j < e ==> IsSpace(s[j])
    ensures e < |s| ==> !IsSpace(s[e])
    decreases |s| - k
  {
    if k < |s| && IsSpace(s[k]) then SpaceRunEnd(s, k + 1) else k
  }

  /** The end of the separator match that starts at `i`, or 0 when none
      starts there: a newline, then the whitespace run after it up to its
      last newline (the greedy `\s*` backs off to that newline). */
  function SeparatorEnd(s: string, i: nat): (e: nat)
    requires i < |s|
    ensures e == 0 || (i + 2 <= e <= |s| && s[i] == '\n' && s[e - 1] == '\n')
  {
    if s[i] != '\n' then 0
    else
      var run := s[i + 1..SpaceRunEnd(s, i + 1)];
      var last := LastIndex(run, '\n');
      if last < 0 then 0 else i + 2 + last
  }

  /** The pieces of `s[start..]`, scanning for the leftmost separator from `i`. */
  function SplitFrom(s: string, start: nat, i: nat): (r: seq<string>)
    requires start <= i <= |s|
    ensures |r| >= 1
    decreases |s| - i
  {
    if i == |s| then [s[start..]]
    else
      var e := SeparatorEnd(s, i);
      if e > 0 then [s[start..i]] + SplitFrom(s, e, e) else SplitFrom(s, start, i + 1)
  }

  function SplitParagraphs(s: string): seq<string> {
    SplitFrom(s, 0, 0)
  }

  /** The separators the scan from `i` matches, in order. */
  function SeparatorsFrom(s: string, i: nat): (r: seq<string>)
    requires i <= |s|
    ensures forall k :: 0 <= k < |r| ==> |r[k]| >= 2 && r[k][0] == '\n' && r[k][|r[k]| - 1] == '\n'
    decreases |s| - i
  {
    if i == |s| then []
    else
      var e := SeparatorEnd(s, i);
      if e > 0 then [s[i..e]] + SeparatorsFrom(s, e) else SeparatorsFrom(s, i + 1)
  }

  /** The pieces with the separators between them. */
  function Interleave(pieces: seq<string>, seps: seq<string>): string
    requires |pieces| == |seps| + 1
    decreases |seps|
  {
    if seps == [] then pieces[0] else pieces[0] + seps[0] + Interleave(pieces[1..], seps[1..])
  }

  /** The scan yields one piece more than it matches separators. */
  lemma {:induction false} SplitCount(s: string, start: nat, i: nat)
    requires start <= i <= |s|
    ensures |SplitFrom(s, start, i)| == |SeparatorsFrom(s, i)| + 1
    decreases |s| - i
  {
    if i < |s| {
      var e := SeparatorEnd(s, i);
      if e > 0 {
        SplitCount(s, e, e);
      } else {
        SplitCount(s, start, i + 1);
      }
    }
  }

  /** Splitting loses nothing: the pieces, with the matched separators put
      back between them, are the text. */
  lemma {:induction false} SplitRoundTrip(s: string, start: nat, i: nat)
    requires start <= i <= |s|
    ensures |SplitFrom(s, start, i)| == |SeparatorsFrom(s, i)| + 1
    ensures Interleave(SplitFrom(s, start, i), SeparatorsFrom(s, i)) == s[start..]
    decreases |s| - i
  {
    SplitCount(s, start, i);
    if i == |s| {
      assert SplitFrom(s, start, i) == [s[start..]] && SeparatorsFrom(s, i) == [];
    } else if SeparatorEnd(s, i) > 0 {
      var e := SeparatorEnd(s, i);
      SplitRoundTrip(s, e, e);
      ScanAtSeparator(s, start, i);
      PieceBeforeSeparator(s, start, i, e, SplitFrom(s, e, e), SeparatorsFrom(s, e));
    } else {
      ScanPastChar(s, start, i);
      SplitRoundTrip(s, start, i + 1);
    }
  }

  /** Where a separator starts, the scan closes a piece and restarts after it. */
  lemma ScanAtSeparator(s: string, start: nat, i: nat)
    requires start <= i < |s| && SeparatorEnd(s, i) > 0
    ensures SplitFrom(s, start, i) == [s[start..i]] + SplitFrom(s, SeparatorEnd(s, i), SeparatorEnd(s, i))
    ensures SeparatorsFrom(s, i) == [s[i..SeparatorEnd(s, i)]] + SeparatorsFrom(s, SeparatorEnd(s, i))
  {
  }

  /** Elsewhere the scan moves one character on. */
  lemma ScanPastChar(s: string, start: nat, i: nat)
    requires start <= i < |s| && SeparatorEnd(s, i) == 0
    ensures SplitFrom(s, start, i) == SplitFrom(s, start, i + 1)
    ensures SeparatorsFrom(s, i) == SeparatorsFrom(s, i + 1)
  {
  }

  /** A piece ending at `i` and the separator `s[i..e]` put in front of the
      rest of the text from `e` give the text from the piece's start. */
  lemma PieceBeforeSeparator(s: string, start: nat, i: nat, e: nat, pieces: seq<string>, seps: seq<string>)
    requires start <= i <= e <= |s|
    requires |pieces| == |seps| + 1 && Interleave(pieces, seps) == s[e..]
    ensures Interleave([s[start..i]] + pieces, [s[i..e]] + seps) == s[start..]
  {
    InterleaveCons(s[start..i], pieces, s[i..e], seps);
    SliceJoin(s, start, i, e);
    SliceJoin(s, start, e, |s|);
    assert s[e..] == s[e..|s|] && s[start..] == s[start..|s|];
  }

  /** One more piece and separator in front. */
  lemma InterleaveCons(p: string, pieces: seq<string>, sep: string, seps: seq<string>)
    requires |pieces| == |seps| + 1
    ensures Interleave([p] + pieces, [sep] + seps) == p + sep + Interleave(pieces, seps)
  {
    assert ([p] + pieces)[1..] == pieces && ([sep] + seps)[1..] == seps;
  }

  /** Adjacent slices join into one. */
  lemma SliceJoin(s: string, a: nat, b: nat, c: nat)
    requires a <= b <= c <= |s|
    ensures s[a..b] + s[b..c] == s[a..c]
  {
  }

  /** `re.split` of the whole text gives it back once the separators are
      put back. */
  lemma SplitParagraphsRoundTrip(s: string)
    ensures |SplitParagraphs(s)| == |SeparatorsFrom(s, 0)| + 1
    ensures Interleave(SplitParagraphs(s), SeparatorsFrom(s, 0)) == s
  {
    SplitRoundTrip(s, 0, 0);
    assert s[0..] == s;
  }

  /** A separator is a newline, any whitespace, and the last newline of
      that whitespace: "a\n \n\tb" splits into "a" and "\tb". */
  lemma SplitExample()
    ensures SplitParagraphs("a\n \n\tb") == ["a", "\tb"]
  {
    var s := "a\n \n\tb";
    assert SeparatorEnd(s, 0) == 0;
    assert SpaceRunEnd(s, 2) == 5 by {
      assert IsSpace(s[2]) && IsSpace(s[3]) && IsSpace(s[4]) && !IsSpace(s[5]);
    }
    var run := s[2..5];
    assert run == " \n\t";
    assert LastIndex(run, '\n') == 1;
    assert SeparatorEnd(s, 1) == 4;
    assert SeparatorEnd(s, 4) == 0;
    assert SeparatorEnd(s, 5) == 0;
    assert s[4..] == "\tb" && s[0..1] == "a";
    assert SplitFrom(s, 4, 6) == ["\tb"];
    assert SplitFrom(s, 4, 4) == ["\tb"];
    assert SplitFrom(s, 0, 1) == ["a"] + SplitFrom(s, 4, 4);
    assert SplitFrom(s, 0, 0) == SplitFrom(s, 0, 1);
  }

  // ---------------------------------------------------------------------
  // Packing paragraphs into chunks

  /** The packer's state: the chunks closed so far and the one being filled. */
  datatype PackState = PackState(closed: seq<string>, current: string)

  /** One paragraph: skipped when blank after stripping; closes the current
      chunk when it is non-empty and the paragraph would take it over the
      limit (the separator not counted); otherwise joins the current chunk. */
  function PackStep(st: PackState, para: string, maxSize: int): PackState {
    var p := Strip(para);
    if p == "" then st
    else if |st.current| + |p| > maxSize && st.current != "" then PackState(st.closed + [st.current], p)
    else if st.current != "" then PackState(st.closed, st.current + ParagraphSep + p)
    else PackState(st.closed, p)
  }

  function PackFrom(paras: seq<string>, maxSize: int): PackState {
    if paras == [] then PackState([], "")
    else PackStep(PackFrom(paras[..|paras| - 1], maxSize), paras[|paras| - 1], maxSize)
  }

  /** The closed chunks and the last one, when it is non-empty. */
  function Flat(st: PackState): seq<string> {
    st.closed + (if st.current != "" then [st.current] else [])
  }

  /** The chunk texts `split_by_paragraphs` produces. */
  function Chunks(paras: seq<string>, maxSize: int): seq<string> {
    Flat(PackFrom(paras, maxSize))
  }

  /** The stripped, non-blank paragraphs, in order. */
  function Cleaned(paras: seq<string>): seq<string> {
    if paras == [] then []
    else Cleaned(paras[..|paras| - 1])
         + (if Strip(paras[|paras| - 1]) != "" then [Strip(paras[|paras| - 1])] else [])
  }

  /** Packing never leaves an empty chunk, starts a second chunk only after
      the first is filled, and produces chunks exactly when some paragraph is
      not blank. */
  lemma {:induction false} PackShape(paras: seq<string>, maxSize: int)
    ensures var st := PackFrom(paras, maxSize);
      (st.current == "" ==> st.closed == [])
      && (forall i :: 0 <= i < |st.closed| ==> st.closed[i] != "")
      && (Flat(st) == [] <==> Cleaned(paras) == [])
  {
    if paras != [] {
      PackShape(paras[..|paras| - 1], maxSize);
    }
  }

  /** `Join(xs + [a + sep + b]) == Join(xs + [a]) + sep + b`. */
  lemma JoinExtendLast(xs: seq<string>, a: string, b: string, sep: string)
    ensures Join(xs + [a + sep + b], sep) == Join(xs + [a], sep) + sep + b
  {
    if xs == [] {
      assert xs + [a + sep + b] == [a + sep + b];
      assert xs + [a] == [a];
    } else {
      JoinAppend(xs, a + sep + b, sep);
      JoinAppend(xs, a, sep);
    }
  }

  /** Joining the chunks gives back the cleaned paragraphs joined by a blank
      line: packing loses, adds and reorders nothing. */
  lemma {:induction false} PackJoin(paras: seq<string>, maxSize: int)
    ensures Join(Chunks(paras, maxSize), ParagraphSep) == Join(Cleaned(paras), ParagraphSep)
  {
    if paras != [] {
      var init := paras[..|paras| - 1];
      var st := PackFrom(init, maxSize);
      PackJoin(init, maxSize);
      PackShape(init, maxSize);
      var p := Strip(paras[|paras| - 1]);
      var cl := Cleaned(init);
      assert PackFrom(paras, maxSize) == PackStep(st, paras[|paras| - 1], maxSize);
      if p == "" {
        assert Cleaned(paras) == cl;
      } else {
        assert Cleaned(paras) == cl + [p];
        if |st.current| + |p| > maxSize && st.current != "" {
          assert Chunks(paras, maxSize) == Flat(st) + [p];
          JoinAppend(Flat(st), p, ParagraphSep);
          JoinAppend(cl, p, ParagraphSep);
        } else if st.current != "" {
          assert Flat(st) == st.closed + [st.current];
          assert Chunks(paras, maxSize) == st.closed + [st.current + ParagraphSep + p];
          JoinExtendLast(st.closed, st.current, p, ParagraphSep);
          JoinAppend(cl, p, ParagraphSep);
        } else {
          assert cl == [];
          assert Chunks(paras, maxSize) == [p];
        }
      }
    }
  }

  /** Every chunk is one paragraph, or at most the limit plus the two
      characters of one separator. */
  lemma {:induction false} PackBound(paras: seq<string>, maxSize: int)
    ensures var c := Chunks(paras, maxSize);
      forall i :: 0 <= i < |c| ==> c[i] in Cleaned(paras) || |c[i]| <= maxSize + 2
  {
    if paras != [] {
      var init := paras[..|paras| - 1];
      PackBound(init, maxSize);
      var st := PackFrom(init, maxSize);
      var c := Chunks(paras, maxSize);
      var p := Strip(paras[|paras| - 1]);
      var cl := Cleaned(init);
      var prev := Chunks(init, maxSize);
      assert PackFrom(paras, maxSize) == PackStep(st, paras[|paras| - 1], maxSize);
      assert Cleaned(paras) == cl + (if p != "" then [p] else []);
      assert forall x :: x in cl ==> x in Cleaned(paras);
      assert forall i :: 0 <= i < |prev| ==> prev[i] in Cleaned(paras) || |prev[i]| <= maxSize + 2;
      if p == "" {
        assert c == prev;
      } else if |st.current| + |p| > maxSize && st.current != "" {
        assert c == prev + [p];
      } else if st.current != "" {
        assert prev == st.closed + [st.current];
        assert c == st.closed + [st.current + ParagraphSep + p];
        assert |st.current + ParagraphSep + p| <= maxSize + 2;
        forall i | 0 <= i < |st.closed| ensures c[i] in Cleaned(paras) || |c[i]| <= maxSize + 2 {
          assert c[i] == prev[i];
        }
      } else {
        PackShape(init, maxSize);
        assert c == [p];
      }
    }
  }

  /** The chunk documents of one file: snippets numbered from 0 in order. */
  function ChunkDocs(texts: seq<string>, filePath: string): (r: seq<IndexedDoc>)
    ensures |r| == |texts|
    ensures forall i :: 0 <= i < |texts| ==>
      r[i] == IndexedDoc(texts[i], filePath, Basename(filePath), Some(i), true)
  {
    seq(|texts|, i requires 0 <= i < |texts| => IndexedDoc(texts[i], filePath, Basename(filePath), Some(i), true))
  }

  /** One more chunk text is one more snippet, numbered after the others. */
  lemma ChunkDocsAppend(texts: seq<string>, t: string, filePath: string)
    ensures ChunkDocs(texts + [t], filePath)
         == ChunkDocs(texts, filePath) + [IndexedDoc(t, filePath, Basename(filePath), Some(|texts|), true)]
  {
    var l, r := ChunkDocs(texts + [t], filePath), ChunkDocs(texts, filePath) + [IndexedDoc(t, filePath, Basename(filePath), Some(|texts|), true)];
    assert forall i :: 0 <= i < |texts| ==> (texts + [t])[i] == texts[i];
    assert |l| == |r|;
    forall i | 0 <= i < |l| ensures l[i] == r[i] {
      if i < |texts| {
        assert (texts + [t])[i] == texts[i];
      } else {
        assert (texts + [t])[i] == t;
      }
    }
  }

  /** `split_by_paragraphs`: packs the paragraphs of `text` greedily into
      snippet documents. */
  method SplitByParagraphs(text: string, filePath: string, maxChunkSize: int) returns (chunks: seq<IndexedDoc>)
    ensures chunks == ChunkDocs(Chunks(SplitParagraphs(text), maxChunkSize), filePath)
  {
    var paragraphs := SplitParagraphs(text);
    var name := Basename(filePath);
    chunks := [];
    var current := "";
    var chunkIndex := 0;
    var i := 0;
    while i < |paragraphs|
      invariant 0 <= i <= |paragraphs|
      invariant chunks == ChunkDocs(PackFrom(paragraphs[..i], maxChunkSize).closed, filePath)
      invariant current == PackFrom(paragraphs[..i], maxChunkSize).current
      invariant chunkIndex == |chunks|
    {
      ghost var before := PackFrom(paragraphs[..i], maxChunkSize);
      assert paragraphs[..i + 1][..i] == paragraphs[..i];
      assert PackFrom(paragraphs[..i + 1], maxChunkSize) == PackStep(before, paragraphs[i], maxChunkSize);
      var para := Strip(paragraphs[i]);
      if para != "" {
        if |current| + |para| > maxChunkSize && current != "" {
          ChunkDocsAppend(before.closed, current, filePath);
          chunks := chunks + [IndexedDoc(current, filePath, name, Some(chunkIndex), true)];
          chunkIndex := chunkIndex + 1;
          current := para;
        } else if current != "" {
          current := current + ParagraphSep + para;
        } else {
          current := para;
        }
      }
      i := i + 1;
    }
    assert paragraphs[..i] == paragraphs;
    ghost var last := PackFrom(paragraphs, maxChunkSize);
    if current != "" {
      ChunkDocsAppend(last.closed, current, filePath);
      chunks := chunks + [IndexedDoc(current, filePath, name, Some(chunkIndex), true)];
    } else {
      assert last.closed + [] == last.closed;
    }
  }

  // ---------------------------------------------------------------------
  // Indexing

  /** The whole-file document. */
  function WholeDoc(content: string, filePath: string): IndexedDoc {
    IndexedDoc(content, filePath, Basename(filePath), None, false)
  }

  /** The documents one newly read file contributes: the whole file alone
      when it is short, otherwise its chunks followed by the whole file. */
  function FileDocs(content: string, filePath: string): (r: seq<IndexedDoc>)
    ensures |r| >= 1 && r[|r| - 1] == WholeDoc(content, filePath)
    ensures forall i :: 0 <= i < |r| - 1 ==> r[i].isSnippet && r[i].chunkIndex == Some(i)
    ensures |content| < WholeFileLimit ==> r == [WholeDoc(content, filePath)]
    ensures forall i :: 0 <= i < |r| ==> r[i].filePath == filePath
  {
    if |content| < WholeFileLimit then [WholeDoc(content, filePath)]
    else ChunkDocs(Chunks(SplitParagraphs(content), MaxChunkSize), filePath) + [WholeDoc(content, filePath)]
  }

  /** What indexing a list of files does: the documents produced, the
      errors reported, and the set of indexed files afterwards. */
  datatype IndexRun = IndexRun(docs: seq<IndexedDoc>, errors: seq<string>, indexed: set<string>)

  /** Indexing one more file after `run`: skipped when already indexed, an
      error when unreadable, otherwise its documents and the file marked. */
  function IndexStep(run: IndexRun, f: string, read: string -> ReadResult): IndexRun {
    if f in run.indexed then run
    else
      match read(f)
      case ReadError(message) => run.(errors := run.errors + ["Error with " + f + ": " + message])
      case Read(content) => IndexRun(run.docs + FileDocs(content, f), run.errors, run.indexed + {f})
  }

  function Indexing(files: seq<string>, indexed: set<string>, read: string -> ReadResult): IndexRun {
    if files == [] then IndexRun([], [], indexed)
    else IndexStep(Indexing(files[..|files| - 1], indexed, read), files[|files| - 1], read)
  }

  /** A file is in the indexed set after a run exactly when it was there
      before or it was listed and could be read. */
  lemma {:induction false} IndexingMembers(files: seq<string>, indexed: set<string>, read: string -> ReadResult)
    ensures forall x :: x in Indexing(files, indexed, read).indexed <==> x in indexed || (x in files && read(x).Read?)
  {
    if files != [] {
      var init, last := files[..|files| - 1], files[|files| - 1];
      IndexingMembers(init, indexed, read);
      assert files == init + [last];
      assert forall x :: x in files <==> x in init || x == last;
    }
  }

  /** A file joins the indexed set exactly when it was already there or it
      was listed and could be read. */
  lemma IndexingSet(files: seq<string>, indexed: set<string>, read: string -> ReadResult)
    ensures Indexing(files, indexed, read).indexed
         == indexed + set f | f in files && read(f).Read?
  {
    IndexingMembers(files, indexed, read);
  }

  /** Files that are all indexed or unreadable produce no documents and leave
      the set alone. */
  lemma {:induction false} NothingNew(files: seq<string>, indexed: set<string>, read: string -> ReadResult)
    requires forall f :: f in files ==> f in indexed || read(f).ReadError?
    ensures Indexing(files, indexed, read).docs == []
    ensures Indexing(files, indexed, read).indexed == indexed
  {
    if files != [] {
      var init := files[..|files| - 1];
      assert forall f :: f in init ==> f in files;
      NothingNew(init, indexed, read);
    }
  }

  /** Indexing the same files again with the set the first run left
      produces nothing and changes nothing. */
  lemma IndexAgain(files: seq<string>, indexed: set<string>, read: string -> ReadResult)
    ensures var first := Indexing(files, indexed, read);
      Indexing(files, first.indexed, read).docs == []
      && Indexing(files, first.indexed, read).indexed == first.indexed
  {
    IndexingSet(files, indexed, read);
    NothingNew(files, Indexing(files, indexed, read).indexed, read);
  }

  // ---------------------------------------------------------------------
  // The selection buffer

  predicate HasItem(items: seq<SearchItem>, path: string, content: string) {
    exists i :: 0 <= i < |items| && items[i].path == path && items[i].content == content
  }

  /** No two selected results share both path and content. */
  predicate UniqueItems(items: seq<SearchItem>) {
    forall i, j :: 0 <= i < j < |items| ==>
      items[i].path != items[j].path || items[i].content != items[j].content
  }

  /** The results whose path differs, in order. */
  function ItemsWithoutPath(items: seq<SearchItem>, path: string): seq<SearchItem> {
    if items == [] then []
    else ItemsWithoutPath(items[..|items| - 1], path)
         + (if items[|items| - 1].path != path then [items[|items| - 1]] else [])
  }

  lemma {:induction false} ItemsWithoutPathMembers(items: seq<SearchItem>, path: string)
    ensures forall x :: x in ItemsWithoutPath(items, path) <==> x in items && x.path != path
  {
    if items != [] {
      ItemsWithoutPathMembers(items[..|items| - 1], path);
      assert items == items[..|items| - 1] + [items[|items| - 1]];
    }
  }

  /** Dropping a path keeps the results unique. */
  lemma {:induction false} ItemsWithoutPathUnique(items: seq<SearchItem>, path: string)
    requires UniqueItems(items)
    ensures UniqueItems(ItemsWithoutPath(items, path))
  {
    if items != [] {
      var init := items[..|items| - 1];
      var last := items[|items| - 1];
      ItemsWithoutPathUnique(init, path);
      ItemsWithoutPathMembers(init, path);
      var w := ItemsWithoutPath(init, path);
      if last.path != path {
        forall i | 0 <= i < |w| ensures w[i].path != last.path || w[i].content != last.content {
          assert w[i] in init;
          var j :| 0 <= j < |init| && init[j] == w[i];
          assert items[j] == init[j];
        }
      }
    }
  }

  /** Removing the result at `index` keeps the results unique. */
  lemma RemoveAtUnique(items: seq<SearchItem>, index: nat)
    requires UniqueItems(items) && index < |items|
    ensures UniqueItems(items[..index] + items[index + 1..])
  {
    var r := items[..index] + items[index + 1..];
    forall i, j | 0 <= i < j < |r| ensures r[i].path != r[j].path || r[i].content != r[j].content {
      var i' := if i < index then i else i + 1;
      var j' := if j < index then j else j + 1;
      assert r[i] == items[i'] && r[j] == items[j'];
    }
  }

  /** The results are stored in the order they were selected: timestamps
      never decrease along the list. The page lists the results sorted by
      timestamp and its remove buttons pass positions in that listing, so
      they point at the stored positions exactly while this holds. */
  predicate SortedByTime(items: seq<SearchItem>) {
    forall i, j :: 0 <= i < j < |items| ==> items[i].timestamp <= items[j].timestamp
  }

  /** Dropping a path keeps the results in selection order. */
  lemma {:induction false} ItemsWithoutPathSorted(items: seq<SearchItem>, path: string)
    requires SortedByTime(items)
    ensures SortedByTime(ItemsWithoutPath(items, path))
  {
    if items != [] {
      var init := items[..|items| - 1];
      var last := items[|items| - 1];
      ItemsWithoutPathSorted(init, path);
      ItemsWithoutPathMembers(init, path);
      var w := ItemsWithoutPath(init, path);
      if last.path != path {
        forall i | 0 <= i < |w| ensures w[i].timestamp <= last.timestamp {
          assert w[i] in init;
          var j :| 0 <= j < |init| && init[j] == w[i];
          assert items[j] == init[j];
        }
        LatestAppendSorted(w, last);
      }
    }
  }

  /** A result no older than every stored one may be appended. */
  lemma LatestAppendSorted(items: seq<SearchItem>, x: SearchItem)
    requires SortedByTime(items)
    requires forall i :: 0 <= i < |items| ==> items[i].timestamp <= x.timestamp
    ensures SortedByTime(items + [x])
  {
    var r := items + [x];
    forall i, j | 0 <= i < j < |r| ensures r[i].timestamp <= r[j].timestamp {
      assert r[i] == items[i];
      if j < |items| {
        assert r[j] == items[j];
      }
    }
  }

  /** Removing the result at `index` keeps the results in selection order. */
  lemma RemoveAtSorted(items: seq<SearchItem>, index: nat)
    requires SortedByTime(items) && index < |items|
    ensures SortedByTime(items[..index] + items[index + 1..])
  {
    var r := items[..index] + items[index + 1..];
    forall i, j | 0 <= i < j < |r| ensures r[i].timestamp <= r[j].timestamp {
      var i' := if i < index then i else i + 1;
      var j' := if j < index then j else j + 1;
      assert r[i] == items[i'] && r[j] == items[j'];
    }
  }

  /** The results after a new one is added: a whole file first drops the
      results of its path. */
  function Added(items: seq<SearchItem>, path: string, content: string, isSnippet: bool, now: int): seq<SearchItem> {
    (if isSnippet then items else ItemsWithoutPath(items, path)) + [SearchItem(path, content, now, isSnippet)]
  }

  /** Adding a result that is not selected yet keeps the results unique, and
      in selection order when the clock has not gone back; after a whole file
      no other result of its path is left. */
  lemma AddedKeeps(items: seq<SearchItem>, path: string, content: string, isSnippet: bool, now: int)
    requires !HasItem(items, path, content)
    ensures var r := Added(items, path, content, isSnippet, now);
      && (!isSnippet ==> forall i :: 0 <= i < |r| - 1 ==> r[i].path != path)
      && (UniqueItems(items) ==> UniqueItems(r))
      && (SortedByTime(items) && (forall j :: 0 <= j < |items| ==> items[j].timestamp <= now) ==> SortedByTime(r))
  {
    var x := SearchItem(path, content, now, isSnippet);
    var kept := if isSnippet then items else ItemsWithoutPath(items, path);
    ItemsWithoutPathMembers(items, path);
    forall j | 0 <= j < |kept| ensures kept[j] in items {
      assert kept[j] in kept;
    }
    if UniqueItems(items) {
      if !isSnippet {
        ItemsWithoutPathUnique(items, path);
      }
      forall i, j | 0 <= i < j < |kept + [x]| ensures (kept + [x])[i].path != (kept + [x])[j].path || (kept + [x])[i].content != (kept + [x])[j].content {
        if j == |kept| {
          assert (kept + [x])[i] == kept[i] && kept[i] in items;
        } else {
          assert (kept + [x])[i] == kept[i] && (kept + [x])[j] == kept[j];
        }
      }
    }
    if SortedByTime(items) && (forall j :: 0 <= j < |items| ==> items[j].timestamp <= now) {
      if !isSnippet {
        ItemsWithoutPathSorted(items, path);
      }
      forall j | 0 <= j < |kept| ensures kept[j].timestamp <= now {
        assert kept[j] in items;
      }
      LatestAppendSorted(kept, x);
    }
  }

  /** Removing one result keeps the others, their uniqueness and their order. */
  lemma RemoveAtKeeps(items: seq<SearchItem>, index: nat)
    requires index < |items|
    ensures var r := items[..index] + items[index + 1..];
      && multiset(r) + multiset{items[index]} == multiset(items)
      && (UniqueItems(items) ==> UniqueItems(r))
      && (SortedByTime(items) ==> SortedByTime(r))
  {
    if UniqueItems(items) {
      RemoveAtUnique(items, index);
    }
    if SortedByTime(items) {
      RemoveAtSorted(items, index);
    }
    RemoveAtMultiset(items, index);
  }

  /** Removing one result loses exactly that result. */
  lemma RemoveAtMultiset(items: seq<SearchItem>, index: nat)
    requires index < |items|
    ensures multiset(items[..index] + items[index + 1..]) + multiset{items[index]} == multiset(items)
  {
    assert items == items[..index] + [items[index]] + items[index + 1..];
  }

  /** Moving the selected results to the chat: snippets are named with a
      suffix, contents and times are kept. */
  function Transferred(items: seq<SearchItem>): (r: seq<Doc>)
    ensures |r| == |items|
  {
    seq(|items|, i requires 0 <= i < |items| =>
      Doc(items[i].path + (if items[i].isSnippet then SnippetSuffix else ""), items[i].content, items[i].timestamp))
  }

  /** The name a result is shown under in the preview. */
  function ItemName(item: SearchItem): string {
    item.path + (if item.isSnippet then SnippetSuffix else "")
  }

  /** The formatted form of each selected result, in order. */
  function SearchFormatted(items: seq<SearchItem>, style: string): (r: seq<string>)
    ensures |r| == |items|
  {
    seq(|items|, i requires 0 <= i < |items| => SearchFormatDocument(ItemName(items[i]), items[i].content, style))
  }

  /** Outside the markdown style, the chat receives exactly the preview the
      Search page shows, provided both are given the same style and the same
      instructions (the two pages read them from different settings). */
  lemma PreviewMatchesChat(items: seq<SearchItem>, style: string, instructions: string)
    requires style != "markdown"
    ensures Preview(instructions, SearchFormatted(items, style))
         == Preview(instructions, ChatFormatted(Transferred(items), style))
  {
    var a := SearchFormatted(items, style);
    var b := ChatFormatted(Transferred(items), style);
    forall i | 0 <= i < |items| ensures a[i] == b[i] {
      CopiesAgreeOutsideMarkdown(ItemName(items[i]), items[i].content, style, DefaultLangMap);
    }
    assert a == b;
  }

  /** Two snippets of one file are distinct results but become two selected
      documents with the same path. */
  lemma TransferCanRepeatPaths()
    ensures var items := [SearchItem("a.md", "x", 0, true), SearchItem("a.md", "y", 1, true)];
      UniqueItems(items) && !UniquePaths(Transferred(items))
  {
    var items := [SearchItem("a.md", "x", 0, true), SearchItem("a.md", "y", 1, true)];
    var t := Transferred(items);
    assert t[0].path == t[1].path;
  }

  /** The Search page's session state: the indexed files, the documents
      written to the store, and the selected results. */
  class SearchState {
    var indexedFiles: set<string>
    var store: seq<IndexedDoc>
    var selected: seq<SearchItem>

    constructor ()
      ensures indexedFiles == {} && store == [] && selected == []
    {
      indexedFiles := {};
      store := [];
      selected := [];
    }

    /** `index_files` with `read` standing for reading a listed file: every
        file not yet indexed is read, its documents collected and the file
        marked; the documents are written to the store at the end. */
    method IndexFiles(files: seq<string>, read: string -> ReadResult) returns (count: nat, errors: seq<string>)
      modifies this
      ensures var run := Indexing(files, old(indexedFiles), read);
        store == old(store) + run.docs && indexedFiles == run.indexed
        && errors == run.errors && count == |run.docs|
      ensures selected == old(selected)
    {
      var documents: seq<IndexedDoc> := [];
      var indexed := indexedFiles;
      errors := [];
      var i := 0;
      while i < |files|
        invariant 0 <= i <= |files|
        invariant Indexing(files[..i], old(indexedFiles), read) == IndexRun(documents, errors, indexed)
        invariant indexedFiles == old(indexedFiles) && store == old(store) && selected == old(selected)
      {
        var filePath := files[i];
        assert files[..i + 1][..i] == files[..i];
        ghost var run := IndexRun(documents, errors, indexed);
        assert Indexing(files[..i + 1], old(indexedFiles), read) == IndexStep(run, filePath, read);
        if filePath !in indexed {
          match read(filePath) {
            case ReadError(message) =>
              errors := errors + ["Error with " + filePath + ": " + message];
            case Read(content) =>
              if |content| < WholeFileLimit {
                documents := documents + [WholeDoc(content, filePath)];
              } else {
                var chunks := SplitByParagraphs(content, filePath, MaxChunkSize);
                assert chunks + [WholeDoc(content, filePath)] == FileDocs(content, filePath);
                AppendAssoc(documents, chunks, [WholeDoc(content, filePath)]);
                documents := documents + chunks + [WholeDoc(content, filePath)];
              }
              indexed := indexed + {filePath};
          }
        }
        assert IndexRun(documents, errors, indexed) == IndexStep(run, filePath, read);
        i := i + 1;
      }
      assert files[..i] == files;
      indexedFiles := indexed;
      store := store + documents;
      count := |documents|;
    }

    /** "Reset Search Index" (and a change of base folder): the store and the
        indexed set start over. */
    method ResetIndex()
      modifies this
      ensures indexedFiles == {} && store == [] && selected == old(selected)
    {
      indexedFiles := {};
      store := [];
    }

    /** `add_search_result`: nothing when the same path and content is
        already selected; a whole file first drops every result of its path;
        then the result is appended. */
    method AddSearchResult(path: string, content: string, isSnippet: bool, now: int)
      modifies this
      ensures selected == if HasItem(old(selected), path, content) then old(selected)
                          else Added(old(selected), path, content, isSnippet, now)
      ensures !HasItem(old(selected), path, content) && !isSnippet ==>
                forall i :: 0 <= i < |selected| - 1 ==> selected[i].path != path
      ensures UniqueItems(old(selected)) ==> UniqueItems(selected)
      ensures SortedByTime(old(selected)) && (forall j :: 0 <= j < |old(selected)| ==> old(selected)[j].timestamp <= now)
              ==> SortedByTime(selected)
      ensures indexedFiles == old(indexedFiles) && store == old(store)
    {
      var i := 0;
      while i < |selected|
        invariant 0 <= i <= |selected|
        invariant forall j :: 0 <= j < i ==> selected[j].path != path || selected[j].content != content
      {
        if selected[i].path == path && selected[i].content == content {
          return;
        }
        i := i + 1;
      }
      AddedKeeps(selected, path, content, isSnippet, now);
      if !isSnippet {
        selected := ItemsWithoutPath(selected, path);
      }
      selected := selected + [SearchItem(path, content, now, isSnippet)];
    }

    /** `remove_search_result`: drops the result at `index` when there is one. */
    method RemoveSearchResult(index: int)
      modifies this
      ensures selected == if 0 <= index < |old(selected)| then old(selected)[..index] + old(selected)[index + 1..]
                          else old(selected)
      ensures 0 <= index < |old(selected)| ==> multiset(selected) + multiset{old(selected)[index]} == multiset(old(selected))
      ensures UniqueItems(old(selected)) ==> UniqueItems(selected)
      ensures SortedByTime(old(selected)) ==> SortedByTime(selected)
      ensures indexedFiles == old(indexedFiles) && store == old(store)
    {
      if 0 <= index < |selected| {
        RemoveAtKeeps(selected, index);
        selected := selected[..index] + selected[index + 1..];
      }
    }

    /** "Clear All Selected". */
    method ClearSelected()
      modifies this
      ensures selected == [] && indexedFiles == old(indexedFiles) && store == old(store)
      ensures SortedByTime(selected)
    {
      selected := [];
    }

    /** `generate_preview` with the configured style and instructions. */
    method GeneratePreview(style: string, instructions: string) returns (preview: string)
      ensures preview == Preview(instructions, SearchFormatted(selected, style))
    {
      var items := selected;
      ghost var formatted := SearchFormatted(items, style);
      if items == [] {
        return NoDocuments;
      }
      var head := instructions + "\n\n";
      preview := head;
      var i := 0;
      while i < |items|
        invariant 0 <= i <= |items|
        invariant preview == head + Blocks(formatted[..i])
      {
        var path := items[i].path;
        if items[i].isSnippet {
          path := path + SnippetSuffix;
        }
        assert path == ItemName(items[i]);
        var block := SearchFormatDocument(path, items[i].content, style);
        assert block == formatted[i];
        BlocksStep(head, formatted, i);
        preview := preview + (block + "\n\n");
        i := i + 1;
      }
      assert formatted[..i] == formatted;
    }
  }

  /** "Start Chat" on the Search page: only with models configured; the
      selected results replace the selected documents when there are any,
      and the conversation starts over. */
  method StartChatFromSearch(search: SearchState, sel: DocumentSelection, chat: ChatState, ml: ModelList)
    returns (started: bool)
    modifies sel, chat
    ensures started <==> |ml.models| > 0
    ensures sel.docs == if started && search.selected != [] then Transferred(search.selected) else old(sel.docs)
    ensures started ==> chat.messages == [] && chat.lastUserMsgIdx == -1 && !chat.awaitingSelection
    ensures !started ==> chat.messages == old(chat.messages) && chat.lastUserMsgIdx == old(chat.lastUserMsgIdx)
                         && chat.awaitingSelection == old(chat.awaitingSelection)
    ensures chat.showHelp == old(chat.showHelp)
  {
    if |ml.models| == 0 {
      return false;
    }
    var items := search.selected;
    if items != [] {
      sel.docs := [];
      var i := 0;
      while i < |items|
        invariant 0 <= i <= |items|
        invariant sel.docs == Transferred(items[..i])
        invariant chat.messages == old(chat.messages) && chat.lastUserMsgIdx == old(chat.lastUserMsgIdx)
        invariant chat.awaitingSelection == old(chat.awaitingSelection) && chat.showHelp == old(chat.showHelp)
      {
        var item := items[i];
        var suffix := if item.isSnippet then SnippetSuffix else "";
        sel.docs := sel.docs + [Doc(item.path + suffix, item.content, item.timestamp)];
        i := i + 1;
      }
      assert items[..i] == items;
    }
    chat.messages := [];
    chat.lastUserMsgIdx := -1;
    chat.awaitingSelection := false;
    return true;
  }
}
