/** The custom dictionary: words with lists of definitions, the set of
    words queried so far, and the text format the dictionary is loaded from
    and exported to. In that format every entry is a `--word` line followed
    by one line per definition. Files are modelled by their contents. */
module WordDictionary {
  import opened Wrappers
  import opened Text
  import PyDict

  type Definitions = PyDict.Dict<string, seq<string>>

  datatype DictError =
    | WordNotFound(word: string)
    | NotAList
    | InvalidWord
    | AlreadyExists(word: string)
    | NoDefinitions
    | EmptyBlock

  /** `query`: the stored definitions, and the word joins the queried set;
      a missing word raises and leaves the queried set as it was. */
  function Query(d: Definitions, queried: set<string>, word: string): (r: (Result<seq<string>, DictError>, set<string>))
    requires PyDict.Wf(d)
    ensures r.0.Ok? <==> word in PyDict.KeySet(d)
    ensures r.0.Ok? ==> (word, r.0.value) in d && r.1 == queried + {word}
    ensures r.0.Err? ==> r.0.error == WordNotFound(word) && r.1 == queried
  {
    match PyDict.Get(d, word)
    case None => (Err(WordNotFound(word)), queried)
    case Some(defs) => (Ok(defs), queried + {word})
  }

  /** The definitions argument of `add_word`: a list or something else. */
  datatype Arg = ListArg(items: seq<string>) | NonList

  /** `add_word`: rejects, in this order, a non-list, an empty word, a word
      already present and an empty list; otherwise adds the word at the end.
      An existing word is never overwritten. */
  function AddWord(d: Definitions, word: string, defs: Arg): (r: Result<Definitions, DictError>)
    requires PyDict.Wf(d)
    ensures defs.NonList? ==> r == Err(NotAList)
    ensures defs.ListArg? && word == "" ==> r == Err(InvalidWord)
    ensures defs.ListArg? && word != "" && word in PyDict.KeySet(d) ==> r == Err(AlreadyExists(word))
    ensures defs.ListArg? && word != "" && word !in PyDict.KeySet(d) && |defs.items| == 0 ==> r == Err(NoDefinitions)
    ensures r.Ok? <==> defs.ListArg? && word != "" && word !in PyDict.KeySet(d) && |defs.items| > 0
    ensures r.Ok? ==> r.value == d + [(word, defs.items)] && PyDict.Wf(r.value)
  {
    if defs.NonList? then Err(NotAList)
    else if word == "" then Err(InvalidWord)
    else if word in PyDict.KeySet(d) then Err(AlreadyExists(word))
    else if |defs.items| == 0 then Err(NoDefinitions)
    else
      PyDict.PutFreshAppends(d, word, defs.items);
      Ok(PyDict.Put(d, word, defs.items))
  }

  // ----- The text format -----

  /** One line per string, each ended by a newline. */
  function Lines(xs: seq<string>): string {
    if |xs| == 0 then "" else xs[0] + "\n" + Lines(xs[1..])
  }

  /** One exported entry, without its leading `--`. */
  function Block(word: string, defs: seq<string>): string {
    word + "\n" + Lines(defs)
  }

  /** `export_words`: for each given word in order, `--word` and then its
      definitions, one per line. Every word must be in the dictionary. */
  function Export(words: seq<string>, d: Definitions): (r: string)
    requires forall w :: w in words ==> w in PyDict.KeySet(d)
    ensures |words| == 0 <==> r == ""
  {
    if |words| == 0 then ""
    else "--" + Block(words[0], PyDict.Get(d, words[0]).value) + Export(words[1..], d)
  }

  /** `export_dictionary`: every word, in dictionary order. */
  function ExportDictionary(d: Definitions): (r: string)
    requires PyDict.Wf(d)
    ensures |d| == 0 <==> r == ""
  {
    PyDict.KeysMatchKeySet(d);
    PyDict.KeysValuesLength(d);
    Export(PyDict.Keys(d), d)
  }

  /** `exported_queried_words`: the queried words, in the order `order`
      lists them (Python leaves the order of a set unspecified). */
  function ExportQueried(d: Definitions, queried: set<string>, order: seq<string>): (r: string)
    requires PyDict.Wf(d)
    requires queried <= PyDict.KeySet(d)
    requires forall w :: w in order <==> w in queried
    ensures |queried| == 0 <==> r == ""
  {
    assert |order| > 0 ==> order[0] in queried;
    Export(order, d)
  }

  /** The lines of one block: the first non-empty line is the word, the
      other non-empty lines are its definitions. A block with no non-empty
      line raises IndexError. */
  function ParseBlock(block: string): (r: Result<(string, seq<string>), DictError>)
    ensures r.Ok? ==> r.value.0 != ""
  {
    var items := NonEmpty(Split(block, "\n"));
    if |items| == 0 then Err(EmptyBlock)
    else
      assert items[0] in items;
      Ok((items[0], items[1..]))
  }

  /** The dict comprehension over the parsed blocks: later blocks of the
      same word replace the definitions but keep the first position. */
  function Insert(acc: Definitions, blocks: seq<string>): (r: Result<Definitions, DictError>)
    requires PyDict.Wf(acc)
    ensures r.Ok? ==> PyDict.Wf(r.value) && PyDict.KeySet(acc) <= PyDict.KeySet(r.value)
    decreases |blocks|
  {
    if |blocks| == 0 then Ok(acc)
    else
      var entry :- ParseBlock(blocks[0]);
      Insert(PyDict.Put(acc, entry.0, entry.1), blocks[1..])
  }

  /** `load_dictionary` on the file's text: split on `--`, drop what comes
      before the first `--`, parse every block. */
  function Load(text: string): (r: Result<Definitions, DictError>)
    ensures r.Ok? ==> PyDict.Wf(r.value)
  {
    Insert([], Split(text, "--")[1..])
  }

  /** A repeated word keeps the definitions of its last block. */
  lemma LastBlockWins(acc: Definitions, b1: string, b2: string)
    requires PyDict.Wf(acc)
    requires ParseBlock(b1).Ok? && ParseBlock(b2).Ok?
    requires ParseBlock(b1).value.0 == ParseBlock(b2).value.0
    ensures Insert(acc, [b1, b2]).Ok?
    ensures PyDict.Get(Insert(acc, [b1, b2]).value, ParseBlock(b1).value.0) == Some(ParseBlock(b2).value.1)
  {
    var e1 := ParseBlock(b1).value;
    var a1 := PyDict.Put(acc, e1.0, e1.1);
    assert [b1, b2][1..] == [b2];
    assert Insert(acc, [b1, b2]) == Insert(a1, [b2]);
    assert [b2][1..] == [];
  }

  // ----- Round trip -----

  predicate NoNewline(s: string) {
    forall i :: 0 <= i < |s| ==> s[i] != '\n'
  }

  /** A word or definition the text format can carry: non-empty, on one
      line, without `--`. */
  predicate Writable(s: string) {
    |s| > 0 && NoNewline(s) && NoDoubleDash(s)
  }

  /** Every exported word and each of its definitions is writable. */
  predicate Exportable(d: Definitions, words: seq<string>) {
    && (forall w :: w in words ==> w in PyDict.KeySet(d))
    && (forall w :: w in words ==> Writable(w))
    && (forall w :: w in words ==> forall x :: x in PyDict.Get(d, w).value ==> Writable(x))
    && (forall i, j :: 0 <= i < j < |words| ==> words[i] != words[j])
  }

  /** The entries of `d` for `words`, in the order of `words`. */
  function Select(d: Definitions, words: seq<string>): (r: Definitions)
    requires forall w :: w in words ==> w in PyDict.KeySet(d)
    ensures |r| == |words|
  {
    if |words| == 0 then [] else [(words[0], PyDict.Get(d, words[0]).value)] + Select(d, words[1..])
  }

  lemma {:induction false} SplitLines(xs: seq<string>)
    requires forall x :: x in xs ==> NoNewline(x)
    ensures Split(Lines(xs), "\n") == xs + [""]
  {
    if |xs| == 0 {
      SplitNoOccurrence("", "\n");
    } else {
      var a := xs[0];
      assert a in xs;
      forall j: nat | j < |a| ensures !OccursAt(a + "\n" + Lines(xs[1..]), "\n", j) {
        OccursAtNewline(a + "\n" + Lines(xs[1..]), j);
      }
      SplitAtFirst(a, "\n", Lines(xs[1..]));
      assert forall x :: x in xs[1..] ==> x in xs;
      SplitLines(xs[1..]);
      assert [a] + (xs[1..] + [""]) == xs + [""];
    }
  }

  lemma OccursAtNewline(s: string, j: nat)
    ensures OccursAt(s, "\n", j) <==> j < |s| && s[j] == '\n'
  {
    if j < |s| && s[j] == '\n' {
      assert s[j..j + 1] == "\n";
    }
  }

  lemma {:induction false} LinesNoDoubleDash(xs: seq<string>)
    requires forall x :: x in xs ==> NoDoubleDash(x)
    ensures NoDoubleDash(Lines(xs))
  {
    if |xs| > 0 {
      assert xs[0] in xs;
      assert forall x :: x in xs[1..] ==> x in xs;
      LinesNoDoubleDash(xs[1..]);
      NoDoubleDashJoin(xs[0], Lines(xs[1..]));
    }
  }

  lemma {:induction false} LinesEnd(xs: seq<string>)
    requires |xs| > 0
    ensures |Lines(xs)| > 0 && Lines(xs)[|Lines(xs)| - 1] == '\n'
  {
    if |xs| > 1 {
      LinesEnd(xs[1..]);
    }
  }

  /** A writable entry parses back to itself. */
  lemma ParseBlockExported(word: string, defs: seq<string>)
    requires Writable(word) && forall x :: x in defs ==> Writable(x)
    ensures ParseBlock(Block(word, defs)) == Ok((word, defs))
  {
    assert Block(word, defs) == Lines([word] + defs) by {
      assert ([word] + defs)[1..] == defs;
    }
    SplitLines([word] + defs);
    NonEmptyAppendEmpty([word] + defs);
    assert ([word] + defs)[1..] == defs;
  }

  /** An exported entry has no `--` and ends with a newline. */
  lemma BlockShape(word: string, defs: seq<string>)
    requires Writable(word) && forall x :: x in defs ==> Writable(x)
    ensures NoDoubleDash(Block(word, defs))
    ensures var b := Block(word, defs); |b| > 0 && b[|b| - 1] == '\n'
  {
    LinesNoDoubleDash(defs);
    NoDoubleDashJoin(word, Lines(defs));
    if |defs| > 0 {
      LinesEnd(defs);
    }
  }

  /** The exported blocks, without their `--` separators. */
  function Blocks(d: Definitions, words: seq<string>): (r: seq<string>)
    requires forall w :: w in words ==> w in PyDict.KeySet(d)
    ensures |r| == |words|
  {
    if |words| == 0 then [] else [Block(words[0], PyDict.Get(d, words[0]).value)] + Blocks(d, words[1..])
  }

  lemma ExportablePrefix(d: Definitions, words: seq<string>)
    requires Exportable(d, words) && |words| > 0
    ensures Exportable(d, words[1..])
    ensures Writable(words[0]) && forall x :: x in PyDict.Get(d, words[0]).value ==> Writable(x)
  {
    assert words[0] in words;
    assert forall w :: w in words[1..] ==> w in words;
    forall i, j | 0 <= i < j < |words[1..]| ensures words[1..][i] != words[1..][j] {
      assert words[1..][i] == words[i + 1] && words[1..][j] == words[j + 1];
    }
  }

  /** Splitting the text after the first `--` yields the blocks. */
  lemma {:induction false} SplitBlocks(d: Definitions, words: seq<string>)
    requires Exportable(d, words) && |words| > 0
    ensures Split(Block(words[0], PyDict.Get(d, words[0]).value) + Export(words[1..], d), "--") == Blocks(d, words)
    decreases |words|
  {
    ExportablePrefix(d, words);
    var b := Block(words[0], PyDict.Get(d, words[0]).value);
    BlockShape(words[0], PyDict.Get(d, words[0]).value);
    if |words| == 1 {
      assert Export(words[1..], d) == "" && b + "" == b;
      assert forall j: nat :: !OccursAt(b, "--", j);
      SplitNoOccurrence(b, "--");
      assert Blocks(d, words[1..]) == [];
    } else {
      var rest := Block(words[1], PyDict.Get(d, words[1]).value) + Export(words[2..], d);
      assert words[1..][0] == words[1] && words[1..][1..] == words[2..];
      assert Export(words[1..], d) == "--" + rest;
      var s := b + "--" + rest;
      forall j: nat | j < |b| ensures !OccursAt(s, "--", j) {
        OccursAtDoubleDash(s, j);
        if j + 2 <= |b| {
          OccursAtDoubleDash(b, j);
        }
      }
      assert b + Export(words[1..], d) == s;
      SplitAtFirst(b, "--", rest);
      SplitBlocks(d, words[1..]);
    }
  }

  /** One parsed block whose word is new appends its entry. */
  lemma InsertFresh(acc: Definitions, block: string, w: string, defs: seq<string>, rest: seq<string>)
    requires PyDict.Wf(acc) && w !in PyDict.KeySet(acc)
    requires ParseBlock(block) == Ok((w, defs))
    ensures PyDict.Wf(acc + [(w, defs)])
    ensures Insert(acc, [block] + rest) == Insert(acc + [(w, defs)], rest)
  {
    PyDict.PutFreshAppends(acc, w, defs);
    assert ([block] + rest)[1..] == rest;
  }

  /** Inserting blocks that parse to entries with new, distinct words
      appends those entries in order. */
  lemma {:induction false} InsertParsed(acc: Definitions, blocks: seq<string>, entries: Definitions)
    requires PyDict.Wf(acc) && |blocks| == |entries|
    requires forall i :: 0 <= i < |blocks| ==> ParseBlock(blocks[i]) == Ok(entries[i])
    requires forall i :: 0 <= i < |entries| ==> entries[i].0 !in PyDict.KeySet(acc)
    requires forall i, j :: 0 <= i < j < |entries| ==> entries[i].0 != entries[j].0
    ensures Insert(acc, blocks) == Ok(acc + entries)
    decreases |blocks|
  {
    if |blocks| > 0 {
      var e := entries[0];
      InsertFresh(acc, blocks[0], e.0, e.1, blocks[1..]);
      assert blocks == [blocks[0]] + blocks[1..];
      var acc' := acc + [e];
      assert Insert(acc, blocks) == Insert(acc', blocks[1..]);
      assert PyDict.KeySet(acc') == PyDict.KeySet(acc) + {e.0} by {
        PyDict.PutFreshAppends(acc, e.0, e.1);
      }
      ParsedTail(acc', blocks, entries);
      InsertParsed(acc', blocks[1..], entries[1..]);
      AppendFirst(acc, entries);
    } else {
      assert acc + entries == acc;
    }
  }

  /** The conditions of `InsertParsed` carry over to the tails once the
      first entry is in the accumulator. */
  lemma ParsedTail(acc': Definitions, blocks: seq<string>, entries: Definitions)
    requires |blocks| == |entries| > 0
    requires forall i :: 0 <= i < |blocks| ==> ParseBlock(blocks[i]) == Ok(entries[i])
    requires forall i :: 1 <= i < |entries| ==> entries[i].0 !in PyDict.KeySet(acc')
    requires forall i, j :: 0 <= i < j < |entries| ==> entries[i].0 != entries[j].0
    ensures forall i :: 0 <= i < |blocks[1..]| ==> ParseBlock(blocks[1..][i]) == Ok(entries[1..][i])
    ensures forall i :: 0 <= i < |entries[1..]| ==> entries[1..][i].0 !in PyDict.KeySet(acc')
    ensures forall i, j :: 0 <= i < j < |entries[1..]| ==> entries[1..][i].0 != entries[1..][j].0
  {
    forall i | 0 <= i < |blocks[1..]| ensures ParseBlock(blocks[1..][i]) == Ok(entries[1..][i]) {
      assert blocks[1..][i] == blocks[i + 1] && entries[1..][i] == entries[i + 1];
    }
    forall i | 0 <= i < |entries[1..]| ensures entries[1..][i].0 !in PyDict.KeySet(acc') {
      assert entries[1..][i] == entries[i + 1];
    }
    forall i, j | 0 <= i < j < |entries[1..]| ensures entries[1..][i].0 != entries[1..][j].0 {
      assert entries[1..][i] == entries[i + 1] && entries[1..][j] == entries[j + 1];
    }
  }

  lemma AppendFirst<T>(a: seq<T>, xs: seq<T>)
    requires |xs| > 0
    ensures (a + [xs[0]]) + xs[1..] == a + xs
  {
    assert xs == [xs[0]] + xs[1..];
  }

  /** Each exported block parses to the selected entry at its position. */
  lemma {:induction false} BlocksParse(d: Definitions, words: seq<string>)
    requires Exportable(d, words)
    ensures |Blocks(d, words)| == |Select(d, words)| == |words|
    ensures forall i :: 0 <= i < |words| ==> ParseBlock(Blocks(d, words)[i]) == Ok(Select(d, words)[i])
    ensures forall i :: 0 <= i < |words| ==> Select(d, words)[i].0 == words[i]
    decreases |words|
  {
    if |words| > 0 {
      ExportablePrefix(d, words);
      ParseBlockExported(words[0], PyDict.Get(d, words[0]).value);
      BlocksParse(d, words[1..]);
      var bs := Blocks(d, words);
      var es := Select(d, words);
      assert bs[1..] == Blocks(d, words[1..]);
      assert es[1..] == Select(d, words[1..]);
      forall i | 0 <= i < |words| ensures ParseBlock(bs[i]) == Ok(es[i]) && es[i].0 == words[i] {
        if i > 0 {
          assert bs[i] == bs[1..][i - 1] && es[i] == es[1..][i - 1] && words[i] == words[1..][i - 1];
        }
      }
    }
  }

  /** Loading exported text gives back the exported entries, in export
      order, provided every word and definition is writable. */
  lemma LoadExport(d: Definitions, words: seq<string>)
    requires Exportable(d, words)
    ensures Load(Export(words, d)) == Ok(Select(d, words))
  {
    ExportSplits(d, words);
    BlocksParse(d, words);
    InsertParsed([], Blocks(d, words), Select(d, words));
    assert [] + Select(d, words) == Select(d, words);
  }

  /** Splitting exported text on the separator gives an empty first piece
      and then one block per word. */
  lemma ExportSplits(d: Definitions, words: seq<string>)
    requires Exportable(d, words)
    ensures |Split(Export(words, d), "--")| > 0
    ensures Split(Export(words, d), "--")[1..] == Blocks(d, words)
  {
    if |words| == 0 {
      SplitNoOccurrence("", "--");
    } else {
      var rest := Block(words[0], PyDict.Get(d, words[0]).value) + Export(words[1..], d);
      assert Export(words, d) == "" + "--" + rest;
      SplitAtFirst("", "--", rest);
      SplitBlocks(d, words);
    }
  }

  lemma {:induction false} SelectAgrees(d: Definitions, e: Definitions, words: seq<string>)
    requires forall w :: w in words ==> w in PyDict.KeySet(d) && w in PyDict.KeySet(e)
    requires forall w :: w in words ==> PyDict.Get(d, w) == PyDict.Get(e, w)
    ensures Select(d, words) == Select(e, words)
  {
    if |words| > 0 {
      assert words[0] in words;
      assert forall w :: w in words[1..] ==> w in words;
      SelectAgrees(d, e, words[1..]);
    }
  }

  /** Selecting every key in key order is the whole dictionary. */
  lemma {:induction false} SelectAll(d: Definitions)
    requires PyDict.Wf(d)
    ensures forall w :: w in PyDict.Keys(d) ==> w in PyDict.KeySet(d)
    ensures Select(d, PyDict.Keys(d)) == d
  {
    PyDict.KeysMatchKeySet(d);
    if |d| > 0 {
      var tail := d[1..];
      var k := d[0].0;
      SelectAll(tail);
      PyDict.KeysMatchKeySet(tail);
      forall w | w in PyDict.Keys(tail)
        ensures w in PyDict.KeySet(d) && w in PyDict.KeySet(tail) && PyDict.Get(d, w) == PyDict.Get(tail, w)
      {
        assert w != k;
      }
      SelectAgrees(d, tail, PyDict.Keys(tail));
      var ks := PyDict.Keys(d);
      assert ks == [k] + PyDict.Keys(tail);
      assert ks[1..] == PyDict.Keys(tail);
      assert PyDict.Get(d, k) == Some(d[0].1);
      assert Select(d, ks) == [(k, d[0].1)] + Select(d, ks[1..]);
      ConsFirst(d);
    }
  }

  lemma ConsFirst<T>(xs: seq<T>)
    requires |xs| > 0
    ensures [xs[0]] + xs[1..] == xs
  {
  }

  /** The full export round-trips: loading an exported dictionary of
      writable words and definitions gives back the same dictionary, order
      included. */
  lemma LoadExportDictionary(d: Definitions)
    requires PyDict.Wf(d)
    requires forall i :: 0 <= i < |d| ==> Writable(d[i].0) && forall x :: x in d[i].1 ==> Writable(x)
    ensures Load(ExportDictionary(d)) == Ok(d)
  {
    SelectAll(d);
    KeysExportable(d);
    LoadExport(d, PyDict.Keys(d));
    assert ExportDictionary(d) == Export(PyDict.Keys(d), d);
  }

  /** The keys of a dictionary of writable entries can all be exported. */
  lemma KeysExportable(d: Definitions)
    requires PyDict.Wf(d)
    requires forall i :: 0 <= i < |d| ==> Writable(d[i].0) && forall x :: x in d[i].1 ==> Writable(x)
    ensures Exportable(d, PyDict.Keys(d))
  {
    PyDict.KeysMatchKeySet(d);
    PyDict.KeysValuesLength(d);
    var ks := PyDict.Keys(d);
    forall w | w in ks ensures Writable(w) && forall x :: x in PyDict.Get(d, w).value ==> Writable(x) {
      var i :| 0 <= i < |ks| && ks[i] == w;
      GetIsEntry(d, i);
    }
  }

  /** In a dict without repeated keys, `Get` finds the entry at its index. */
  lemma {:induction false} GetIsEntry(d: Definitions, i: nat)
    requires PyDict.Wf(d) && i < |d|
    ensures PyDict.Get(d, d[i].0) == Some(d[i].1)
  {
    if i > 0 {
      GetIsEntry(d[1..], i - 1);
      assert d[1..][i - 1] == d[i];
      PyDict.KeysMatchKeySet(d[1..]);
      PyDict.KeysValuesLength(d[1..]);
      assert PyDict.Keys(d[1..])[i - 1] == d[i].0;
    }
  }

  lemma {:induction false} SelectKeys(d: Definitions, words: seq<string>)
    requires forall w :: w in words ==> w in PyDict.KeySet(d)
    ensures forall w :: w in PyDict.KeySet(Select(d, words)) <==> w in words
  {
    if |words| > 0 {
      assert forall w :: w in words[1..] ==> w in words;
      SelectKeys(d, words[1..]);
      assert Select(d, words)[1..] == Select(d, words[1..]);
      assert forall w :: w in words <==> w == words[0] || w in words[1..];
    }
  }

  /** Exporting the queried words writes exactly those words: loading the
      export gives a dictionary whose words are the queried ones, each with
      its definitions. */
  lemma QueriedExportCovers(d: Definitions, queried: set<string>, order: seq<string>)
    requires PyDict.Wf(d) && queried <= PyDict.KeySet(d)
    requires forall w :: w in order <==> w in queried
    requires Exportable(d, order)
    ensures Load(ExportQueried(d, queried, order)).Ok?
    ensures PyDict.KeySet(Load(ExportQueried(d, queried, order)).value) == queried
  {
    LoadExport(d, order);
    SelectKeys(d, order);
    assert ExportQueried(d, queried, order) == Export(order, d);
  }
}
