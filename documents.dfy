/** The Documents page: a selection of whole files, unique by path, that is
    formatted into the context of the first chat message; the directory grouping
    of the file browser; and the token estimate of the sidebar. */
module Documents {
  import opened Values
  import opened Text
  import opened Formatter

  /** One selected document. The selection time is an opaque clock reading. */
  datatype Doc = Doc(path: string, content: string, timestamp: int)

  /** The outcome of reading a file: its text, or the error message shown. */
  datatype ReadResult = Read(content: string) | ReadError(message: string)

  predicate HasPath(docs: seq<Doc>, path: string) {
    exists i :: 0 <= i < |docs| && docs[i].path == path
  }

  /** No two selected documents share a path. */
  predicate UniquePaths(docs: seq<Doc>) {
    forall i, j :: 0 <= i < j < |docs| ==> docs[i].path != docs[j].path
  }

  /** The documents whose path differs from `path`, in their order. */
  function WithoutPath(docs: seq<Doc>, path: string): seq<Doc> {
    if docs == [] then []
    else WithoutPath(docs[..|docs| - 1], path)
         + (if docs[|docs| - 1].path != path then [docs[|docs| - 1]] else [])
  }

  /** Removing a path keeps exactly the documents with another path. */
  lemma {:induction false} WithoutPathMembers(docs: seq<Doc>, path: string)
    ensures forall d :: d in WithoutPath(docs, path) <==> d in docs && d.path != path
  {
    if docs != [] {
      var init := docs[..|docs| - 1];
      WithoutPathMembers(init, path);
      assert docs == init + [docs[|docs| - 1]];
    }
  }

  /** Removing a path that is not selected changes nothing. */
  lemma {:induction false} WithoutAbsentPath(docs: seq<Doc>, path: string)
    requires !HasPath(docs, path)
    ensures WithoutPath(docs, path) == docs
  {
    if docs != [] {
      var init := docs[..|docs| - 1];
      forall i | 0 <= i < |init| ensures init[i].path != path {
        assert init[i] == docs[i];
      }
      WithoutAbsentPath(init, path);
      assert docs == init + [docs[|docs| - 1]];
    }
  }

  /** Removing a path keeps the paths unique and leaves no document with it. */
  lemma {:induction false} WithoutPathUnique(docs: seq<Doc>, path: string)
    requires UniquePaths(docs)
    ensures UniquePaths(WithoutPath(docs, path))
    ensures !HasPath(WithoutPath(docs, path), path)
  {
    if docs != [] {
      var init := docs[..|docs| - 1];
      var last := docs[|docs| - 1];
      WithoutPathUnique(init, path);
      WithoutPathMembers(init, path);
      var w := WithoutPath(init, path);
      if last.path != path {
        forall i | 0 <= i < |w| ensures w[i].path != last.path {
          assert w[i] in init;
          var j :| 0 <= j < |init| && init[j] == w[i];
          assert docs[j] == init[j];
        }
        assert UniquePaths(w + [last]);
        forall i | 0 <= i < |w + [last]| ensures (w + [last])[i].path != path {
          if i < |w| {
            assert (w + [last])[i] == w[i];
          }
        }
      }
    }
  }

  /** Removing a document that was just added restores the selection. */
  lemma RemoveUndoesAdd(docs: seq<Doc>, d: Doc)
    requires !HasPath(docs, d.path)
    ensures WithoutPath(docs + [d], d.path) == docs
  {
    assert (docs + [d])[..|docs + [d]| - 1] == docs;
    WithoutAbsentPath(docs, d.path);
  }

  /** The formatted form of each selected document, in order. */
  function FormattedDocs(docs: seq<Doc>, style: string, langMap: map<string, string>): (r: seq<string>)
    ensures |r| == |docs|
  {
    seq(|docs|, i requires 0 <= i < |docs| => DocumentsFormatDocument(docs[i].path, docs[i].content, style, langMap))
  }

  /** Python's `a // b`: the floor of the quotient, for either sign of `b`. */
  function FloorDiv(a: int, b: int): (q: int)
    requires b != 0
    ensures b > 0 ==> b * q <= a < b * q + b
    ensures b < 0 ==> b * q + b < a <= b * q
  {
    if b > 0 then a / b else (-a) / (-b)
  }

  /** The key a file is grouped under in the recursive file browser. */
  function DirKey(file: string): string {
    if Dirname(file) != "" then Dirname(file) else "."
  }

  /** The files listed under directory key `k`, in listing order. */
  function InDir(files: seq<string>, k: string): seq<string> {
    if files == [] then []
    else InDir(files[..|files| - 1], k) + (if DirKey(files[|files| - 1]) == k then [files[|files| - 1]] else [])
  }

  lemma {:induction false} InDirMembers(files: seq<string>, k: string)
    ensures forall f :: f in InDir(files, k) <==> f in files && DirKey(f) == k
  {
    if files != [] {
      InDirMembers(files[..|files| - 1], k);
      assert files == files[..|files| - 1] + [files[|files| - 1]];
    }
  }

  /** The file browser's grouping: every listed file lands in the group of its
      own directory key and in no other group. */
  lemma GroupsPartition(files: seq<string>, groups: map<string, seq<string>>, f: string, k: string)
    requires forall k :: k in groups ==> groups[k] == InDir(files, k)
    requires f in files && k in groups
    ensures f in groups[k] <==> k == DirKey(f)
  {
    InDirMembers(files, k);
  }

  /** Groups the listed files by directory (".", for files at the top). */
  method GroupByDirectory(files: seq<string>) returns (groups: map<string, seq<string>>)
    ensures groups.Keys == set f | f in files :: DirKey(f)
    ensures forall k :: k in groups ==> groups[k] == InDir(files, k)
  {
    groups := map[];
    var i := 0;
    while i < |files|
      invariant 0 <= i <= |files|
      invariant forall k :: k in groups <==> InDir(files[..i], k) != []
      invariant forall k :: k in groups ==> groups[k] == InDir(files[..i], k)
    {
      var file := files[i];
      var dir := DirKey(file);
      ghost var prev := files[..i];
      assert files[..i + 1] == prev + [file];
      var group := if dir in groups then groups[dir] else [];
      assert group == InDir(prev, dir);
      groups := groups[dir := group + [file]];
      i := i + 1;
      assert forall k :: InDir(files[..i], k) == InDir(prev, k) + (if dir == k then [file] else []);
    }
    assert files[..i] == files;
    forall k ensures k in groups <==> k in set f | f in files :: DirKey(f) {
      InDirMembers(files, k);
      if k in groups {
        assert InDir(files, k)[0] in InDir(files, k);
      }
      if k in set f | f in files :: DirKey(f) {
        var f :| f in files && DirKey(f) == k;
        assert f in InDir(files, k);
      }
    }
  }

  /** The selected documents of the session. */
  class DocumentSelection {
    var docs: seq<Doc>

    constructor ()
      ensures docs == []
    {
      docs := [];
    }

    /** Selects a file unless its path is already selected; a read error is
        reported and selects nothing. */
    method AddDocument(path: string, read: ReadResult, now: int) returns (error: Option<string>)
      modifies this
      ensures docs == if HasPath(old(docs), path) || read.ReadError? then old(docs)
                      else old(docs) + [Doc(path, read.content, now)]
      ensures error == if !HasPath(old(docs), path) && read.ReadError? then Some(read.message) else None
      ensures UniquePaths(old(docs)) ==> UniquePaths(docs)
    {
      var i := 0;
      while i < |docs|
        invariant 0 <= i <= |docs|
        invariant forall j :: 0 <= j < i ==> docs[j].path != path
      {
        if docs[i].path == path {
          return None;
        }
        i := i + 1;
      }
      match read
      case ReadError(message) =>
        return Some(message);
      case Read(content) =>
        docs := docs + [Doc(path, content, now)];
        return None;
    }

    /** Deselects every document with the given path. */
    method RemoveDocument(path: string)
      modifies this
      ensures docs == WithoutPath(old(docs), path)
      ensures !HasPath(docs, path) || !UniquePaths(old(docs))
      ensures UniquePaths(old(docs)) ==> UniquePaths(docs)
    {
      var kept: seq<Doc> := [];
      var i := 0;
      while i < |docs|
        invariant 0 <= i <= |docs|
        invariant kept == WithoutPath(docs[..i], path)
      {
        assert docs[..i + 1][..i] == docs[..i];
        if docs[i].path != path {
          kept := kept + [docs[i]];
        }
        i := i + 1;
      }
      assert docs[..i] == docs;
      if UniquePaths(docs) {
        WithoutPathUnique(docs, path);
      }
      docs := kept;
    }

    /** The preview of the Documents page, in selection order. */
    method GeneratePreview(style: string, instructions: string, langMap: map<string, string>)
      returns (preview: string)
      ensures preview == Preview(instructions, FormattedDocs(docs, style, langMap))
    {
      var ds := docs;
      ghost var formatted := FormattedDocs(ds, style, langMap);
      if ds == [] {
        return NoDocuments;
      }
      var head := instructions + "\n\n";
      preview := head;
      var i := 0;
      while i < |ds|
        invariant 0 <= i <= |ds|
        invariant preview == head + Blocks(formatted[..i])
      {
        var block := DocumentsFormatDocument(ds[i].path, ds[i].content, style, langMap);
        assert block == formatted[i];
        BlocksStep(head, formatted, i);
        preview := preview + (block + "\n\n");
        i := i + 1;
      }
      assert formatted[..i] == formatted;
    }

    /** The sidebar statistics: total characters, estimated tokens
        (characters floor-divided by the configured ratio) and whether the
        context-limit warning shows. A ratio of 0 raises `ZeroDivisionError`,
        so no estimate and no warning are shown. */
    method EstimateTokens(ratio: int, threshold: int) returns (totalChars: nat, estimated: Result<int>, warn: bool)
      ensures totalChars == TotalLength(Contents(docs))
      ensures ratio == 0 <==> estimated.Err?
      ensures ratio == 0 ==> estimated == Err(ZeroDivision)
      ensures ratio > 0 ==> estimated.Ok? && ratio * estimated.value <= totalChars < ratio * estimated.value + ratio
      ensures ratio < 0 ==> estimated.Ok? && ratio * estimated.value + ratio < totalChars <= ratio * estimated.value
      ensures warn <==> estimated.Ok? && estimated.value > threshold
    {
      totalChars := 0;
      var i := |docs|;
      while i > 0
        invariant 0 <= i <= |docs|
        invariant totalChars == TotalLength(Contents(docs[i..]))
      {
        i := i - 1;
        assert Contents(docs[i..]) == [docs[i].content] + Contents(docs[i + 1..]);
        totalChars := totalChars + |docs[i].content|;
      }
      if ratio == 0 {
        return totalChars, Err(ZeroDivision), false;
      }
      var tokens := FloorDiv(totalChars, ratio);
      estimated := Ok(tokens);
      warn := tokens > threshold;
    }
  }

  /** The message of the `ZeroDivisionError` integer `//` raises. */
  const ZeroDivision: string := "integer division or modulo by zero"

  /** The contents of the documents, in order. */
  function Contents(docs: seq<Doc>): (r: seq<string>)
    ensures |r| == |docs| && forall i :: 0 <= i < |docs| ==> r[i] == docs[i].content
  {
    seq(|docs|, i requires 0 <= i < |docs| => docs[i].content)
  }
}
