// What `save_model` writes and `load_model` reads back: the `.model` file
// as a sequence of lines, and the round trips between the two.

module ModelFile {
  import opened Wrappers
  import opened BTree
  import opened RustStr
  import opened Helpers
  import opened Bpe

  /** A nonempty run of non-whitespace characters: what `split_whitespace`
      keeps as one part. */
  predicate IsWord(s: string) {
    s != [] && NoWhitespace(s)
  }

  /** Pattern, special tokens and pairs that `save_model` can write so that
      `load_model` reads the same back: the pattern is one line with no
      surrounding whitespace, every special token is one word, and every
      number fits in an `i32`. */
  predicate Saveable(pattern: string, specials: map<string, int>, pairs: seq<Pair>) {
    SavesPattern(pattern) && SavesSpecials(specials) && SavesPairs(pairs)
  }

  predicate SavesPattern(pattern: string) {
    IsLine(pattern) && Trim(pattern) == pattern
  }

  predicate SavesSpecials(specials: map<string, int>) {
    && |specials| <= I32Max
    && (forall t :: t in specials ==> IsWord(t) && InI32(specials[t]))
  }

  predicate SavesPairs(pairs: seq<Pair>) {
    forall k :: 0 <= k < |pairs| ==> InI32(pairs[k].0) && InI32(pairs[k].1)
  }

  lemma {:induction false} WordsLine(a: string, b: string)
    requires NoWhitespace(a) && NoWhitespace(b)
    ensures IsLine(a + " " + b)
  {
    var l := a + " " + b;
    forall i | 0 <= i < |l|
      ensures l[i] != '\n'
    {
      if i < |a| {
        assert l[i] == a[i];
      } else if i > |a| {
        assert l[i] == b[i - |a| - 1];
      }
    }
    if b != [] {
      assert l[|l| - 1] == b[|b| - 1];
    }
  }

  lemma {:induction false} WordLine(a: string)
    requires NoWhitespace(a)
    ensures IsLine(a)
  {
    if a != [] {
      assert !IsWhitespace(a[|a| - 1]);
    }
  }

  /** Lines none of which holds a line feed or ends with a carriage
      return. */
  predicate AllLines(ls: seq<string>) {
    forall k :: 0 <= k < |ls| ==> IsLine(ls[k])
  }

  lemma {:induction false} AllLinesAppend(a: seq<string>, b: seq<string>)
    requires AllLines(a) && AllLines(b)
    ensures AllLines(a + b)
  {
    forall k | 0 <= k < |a + b|
      ensures IsLine((a + b)[k])
    {
      if k < |a| {
        assert (a + b)[k] == a[k];
      } else {
        assert (a + b)[k] == b[k - |a|];
      }
    }
  }

  lemma {:induction false} HeaderLines(pattern: string, specials: map<string, int>)
    requires IsLine(pattern)
    ensures AllLines(Header(pattern, specials))
  {
    WordsLine("minbpe", "v1");
    assert Version == "minbpe" + " " + "v1";
    WordLine(IntToString(|specials|));
  }

  lemma {:induction false} SpecialLinesAreLines(specials: map<string, int>, names: seq<string>)
    requires forall t :: t in names ==> t in specials && NoWhitespace(t)
    ensures AllLines(SpecialLines(specials, names))
  {
    var ls := SpecialLines(specials, names);
    forall k | 0 <= k < |ls|
      ensures IsLine(ls[k])
    {
      var t := names[k];
      SpecialLinesAt(specials, names, k);
      WordsLine(t, IntToString(specials[t]));
    }
  }

  lemma {:induction false} MergeLinesAreLines(pairs: seq<Pair>)
    ensures AllLines(MergeLines(pairs))
  {
    var ls := MergeLines(pairs);
    forall k | 0 <= k < |ls|
      ensures IsLine(ls[k])
    {
      var p := pairs[k];
      MergeLinesAt(pairs, k);
      WordsLine(IntToString(p.0), IntToString(p.1));
    }
  }

  /** Every line of a saved model file reads back as one line. */
  lemma {:induction false} ModelLinesAreLines(pattern: string, specials: map<string, int>, pairs: seq<Pair>)
    requires IsLine(pattern)
    requires forall t :: t in specials ==> NoWhitespace(t)
    ensures AllLines(ModelLinesWith(pattern, specials, pairs))
  {
    var header := Header(pattern, specials);
    var special := SpecialLines(specials, SortedStrings(specials.Keys));
    var merged := MergeLines(pairs);
    HeaderLines(pattern, specials);
    SpecialLinesAreLines(specials, SortedStrings(specials.Keys));
    MergeLinesAreLines(pairs);
    AllLinesAppend(header, special);
    AllLinesAppend(header + special, merged);
  }

  lemma {:induction false} ParseSpecialLineOf(name: string, id: int)
    requires IsWord(name) && InI32(id)
    ensures ParseSpecialLine(SpecialLine(name, id)) == Ok((name, id))
  {
    SplitTwoWords(name, IntToString(id));
    ParseI32OfIntToString(id);
  }

  lemma {:induction false} ParseMergeLineOf(p: Pair)
    requires InI32(p.0) && InI32(p.1)
    ensures ParseMergeLine(MergeLine(p)) == Ok(p)
  {
    SplitTwoWords(IntToString(p.0), IntToString(p.1));
    ParseI32OfIntToString(p.0);
    ParseI32OfIntToString(p.1);
  }

  lemma {:induction false} SpecialStep(acc: map<string, int>, line: string, rest: seq<string>, entry: (string, int))
    requires ParseSpecialLine(line) == Ok(entry)
    ensures ParseSpecialEntries(acc, [line] + rest) == ParseSpecialEntries(acc[entry.0 := entry.1], rest)
  {
    assert ([line] + rest)[1..] == rest;
  }

  /** `acc` with each of `names` set to its id in `specials`, in order. */
  function Inserted(acc: map<string, int>, specials: map<string, int>, names: seq<string>): map<string, int>
    requires forall t :: t in names ==> t in specials
    decreases |names|
  {
    if names == [] then acc else Inserted(acc[names[0] := specials[names[0]]], specials, names[1..])
  }

  lemma {:induction false} InsertedAt(acc: map<string, int>, specials: map<string, int>, names: seq<string>)
    requires forall t :: t in names ==> t in specials
    ensures var r := Inserted(acc, specials, names);
      && (forall u :: u in r <==> u in acc || u in names)
      && (forall u :: u in names ==> r[u] == specials[u])
      && (forall u :: u in acc && u !in names ==> r[u] == acc[u])
    decreases |names|
  {
    if names != [] {
      InsertedAt(acc[names[0] := specials[names[0]]], specials, names[1..]);
      assert forall u :: u in names <==> u == names[0] || u in names[1..];
    }
  }

  /** Reading the special-token lines written for `names` adds each name
      with its id. */
  lemma {:induction false} ParseSpecialEntriesOf(acc: map<string, int>, specials: map<string, int>, names: seq<string>)
    requires forall t :: t in names ==> t in specials && IsWord(t) && InI32(specials[t])
    ensures ParseSpecialEntries(acc, SpecialLines(specials, names)) == Ok(Inserted(acc, specials, names))
    decreases |names|
  {
    if names != [] {
      var t := names[0];
      ParseSpecialLineOf(t, specials[t]);
      SpecialStep(acc, SpecialLine(t, specials[t]), SpecialLines(specials, names[1..]), (t, specials[t]));
      ParseSpecialEntriesOf(acc[t := specials[t]], specials, names[1..]);
    }
  }

  lemma {:induction false} MergesStep(acc: map<Pair, int>, line: string, rest: seq<string>, idx: int, p: Pair)
    requires ParseMergeLine(line) == Ok(p)
    ensures ParseMerges(acc, [line] + rest, idx) == ParseMerges(acc[p := idx], rest, idx + 1)
  {
    assert ([line] + rest)[1..] == rest;
  }

  /** Reading the merge lines written for `pairs` numbers them from `idx`
      in file order. */
  lemma {:induction false} ParseMergesOf(acc: map<Pair, int>, pairs: seq<Pair>, idx: int)
    requires forall k :: 0 <= k < |pairs| ==> InI32(pairs[k].0) && InI32(pairs[k].1)
    ensures ParseMerges(acc, MergeLines(pairs), idx) == Ok(Numbered(acc, pairs, idx))
    decreases |pairs|
  {
    if pairs != [] {
      var p := pairs[0];
      ParseMergeLineOf(p);
      MergesStep(acc, MergeLine(p), MergeLines(pairs[1..]), idx, p);
      ParseMergesOf(acc[p := idx], pairs[1..], idx + 1);
    }
  }

  lemma {:induction false} SpecialsOfSorted(specials: map<string, int>)
    requires forall t :: t in specials ==> IsWord(t) && InI32(specials[t])
    ensures ParseSpecialEntries(map[], SpecialLines(specials, SortedStrings(specials.Keys))) == Ok(specials)
  {
    var names := SortedStrings(specials.Keys);
    var none: map<string, int> := map[];
    ParseSpecialEntriesOf(none, specials, names);
    InsertedAll(specials, names);
  }

  /** Inserting every key of `specials` into an empty map rebuilds it. */
  lemma {:induction false} InsertedAll(specials: map<string, int>, names: seq<string>)
    requires forall t :: t in names <==> t in specials
    ensures Inserted(map[], specials, names) == specials
  {
    var none: map<string, int> := map[];
    var r := Inserted(none, specials, names);
    InsertedAt(none, specials, names);
    assert forall u :: u in r <==> u in specials;
  }

  /** The special-token section written for `specials`, followed by any
      lines, reads back as `specials` and leaves those lines. */
  lemma {:induction false} SpecialsSection(specials: map<string, int>, rest: seq<string>)
    requires forall t :: t in specials ==> IsWord(t) && InI32(specials[t])
    ensures ParseSpecials(SpecialLines(specials, SortedStrings(specials.Keys)) + rest, |specials|)
         == Ok((specials, rest))
  {
    var special := SpecialLines(specials, SortedStrings(specials.Keys));
    var lines := special + rest;
    assert lines[..|specials|] == special;
    assert lines[|specials|..] == rest;
    SpecialsOfSorted(specials);
  }

  /** The three header lines written for a pattern and a count read back
      as that pattern and that count, the rest following them. */
  lemma {:induction false} HeaderOf(ls: seq<string>, pattern: string, count: int, body: seq<string>)
    requires ls == [Version, pattern, IntToString(count)] + body
    requires Trim(pattern) == pattern && InI32(count)
    ensures |ls| >= 3 && Trim(ls[0]) == Version && Trim(ls[1]) == pattern && ParseI32(ls[2]) == Some(count)
    ensures ls[3..] == body
  {
    assert ls[0] == Version;
    assert ls[1] == pattern;
    assert ls[2] == IntToString(count);
    DropPrefix([Version, pattern, IntToString(count)], body);
    assert Trim(Version) == Version by { assert !IsWhitespace(Version[0]) && !IsWhitespace(Version[|Version| - 1]); }
    ParseI32OfIntToString(count);
  }

  lemma {:induction false} DropPrefix<T>(h: seq<T>, body: seq<T>)
    ensures (h + body)[|h|..] == body
  {
  }

  /** `ParseModel` on lines whose header and sections each read. */
  lemma {:induction false} ParseModelOf(ls: seq<string>, pattern: string, count: int,
                     specials: map<string, int>, rest: seq<string>, merges: map<Pair, int>)
    requires |ls| >= 3 && Trim(ls[0]) == Version && Trim(ls[1]) == pattern && ParseI32(ls[2]) == Some(count)
    requires ParseSpecials(ls[3..], count) == Ok((specials, rest))
    requires ParseMerges(map[], rest, 256) == Ok(merges)
    ensures ParseModel(ls) == Parsed(Loaded(pattern, specials, merges))
  {
  }

  lemma {:induction false} ModelLinesShape(pattern: string, specials: map<string, int>, pairs: seq<Pair>)
    ensures ModelLinesWith(pattern, specials, pairs)
         == [Version, pattern, IntToString(|specials|)]
            + (SpecialLines(specials, SortedStrings(specials.Keys)) + MergeLines(pairs))
  {
    Associative(Header(pattern, specials), SpecialLines(specials, SortedStrings(specials.Keys)), MergeLines(pairs));
  }

  /** The lines of a model file whose merge section lists `pairs` parse
      as the same pattern and special tokens, with the pairs numbered from
      256 in file order. */
  lemma {:induction false} ParseModelLines(pattern: string, specials: map<string, int>, pairs: seq<Pair>)
    requires Saveable(pattern, specials, pairs)
    ensures ParseModel(ModelLinesWith(pattern, specials, pairs))
         == Parsed(Loaded(pattern, specials, Numbered(map[], pairs, 256)))
  {
    var ls := ModelLinesWith(pattern, specials, pairs);
    var special := SpecialLines(specials, SortedStrings(specials.Keys));
    var merged := MergeLines(pairs);
    ModelLinesShape(pattern, specials, pairs);
    SpecialsSection(specials, merged);
    ParseMergesOf(map[], pairs, 256);
    HeaderOf(ls, pattern, |specials|, special + merged);
    ParseModelOf(ls, pattern, |specials|, specials, merged, Numbered(map[], pairs, 256));
  }

  /** The same, read from the file's text. */
  lemma {:induction false} LoadSaveWith(pattern: string, specials: map<string, int>, pairs: seq<Pair>)
    requires Saveable(pattern, specials, pairs)
    ensures ParseModel(Lines(JoinLines(ModelLinesWith(pattern, specials, pairs))))
         == Parsed(Loaded(pattern, specials, Numbered(map[], pairs, 256)))
  {
    ModelLinesAreLines(pattern, specials, pairs);
    LinesOfJoin(ModelLinesWith(pattern, specials, pairs));
    ParseModelLines(pattern, specials, pairs);
  }

  /** `load_model` after `save_model`, as written: pattern and special
      tokens come back, and so do the merged pairs, but numbered from 256
      in ascending pair order whatever ids they had. */
  lemma {:induction false} LoadSave(pattern: string, specials: map<string, int>, merges: map<Pair, int>)
    requires Saveable(pattern, specials, SortedPairs(merges.Keys))
    ensures ParseModel(Lines(JoinLines(ModelLines(pattern, specials, merges))))
         == Parsed(Loaded(pattern, specials, Numbered(map[], SortedPairs(merges.Keys), 256)))
    ensures Numbered(map[], SortedPairs(merges.Keys), 256).Keys == merges.Keys
  {
    var sorted := SortedPairs(merges.Keys);
    LoadSaveWith(pattern, specials, sorted);
    NumberedListing(merges, sorted);
  }

  /** Saving what was loaded writes the same file again. */
  lemma {:induction false} SaveLoadSave(pattern: string, specials: map<string, int>, merges: map<Pair, int>)
    requires Saveable(pattern, specials, SortedPairs(merges.Keys))
    ensures var loaded := ParseModel(Lines(JoinLines(ModelLines(pattern, specials, merges))));
      && loaded.Parsed?
      && ModelLines(loaded.model.pattern, loaded.model.specials, loaded.model.merges)
         == ModelLines(pattern, specials, merges)
  {
    LoadSave(pattern, specials, merges);
  }

  /** The merges `train` makes from the text "abcabc": (b, c) first as 256,
      then (a, 256) as 257. Saved in pair order and loaded, they swap ids,
      and building the vocabulary of what was loaded panics. */
  lemma {:induction false} SaveLoadRenumbers()
    ensures var merges := map[(98, 99) := 256, (97, 256) := 257];
      var loaded := ParseModel(Lines(JoinLines(ModelLines("", map[], merges))));
      && Trained(Fresh("abcabc"), 0, 2, false).0.merges == merges
      && loaded == Parsed(Loaded("", map[], map[(97, 256) := 256, (98, 99) := 257]))
      && VocabOf(loaded.model.merges, map[]) == Err(MissingId(256))
  {
    AbcabcTrain(false);
    var merges := map[(98, 99) := 256, (97, 256) := 257];
    assert merges.Keys == {(98, 99), (97, 256)};
    PairOrderLoad(merges);
    SwappedPanics();
  }

  /** Whatever ids they carry, merges of (b, c) and (a, 256) are saved with
      (a, 256) first and so load as 256 and 257 in that order. */
  lemma {:induction false} PairOrderLoad(merges: map<Pair, int>)
    requires merges.Keys == {(98, 99), (97, 256)}
    ensures ParseModel(Lines(JoinLines(ModelLines("", map[], merges))))
         == Parsed(Loaded("", map[], map[(97, 256) := 256, (98, 99) := 257]))
  {
    var none: map<string, int> := map[];
    assert Saveable("", none, SortedPairs(merges.Keys)) by {
      TwoPairsSorted(merges);
      assert Trim("") == "";
    }
    LoadSave("", none, merges);
    NumberedSwapped(merges);
  }

  lemma {:induction false} NumberedSwapped(merges: map<Pair, int>)
    requires merges.Keys == {(98, 99), (97, 256)}
    ensures Numbered(map[], SortedPairs(merges.Keys), 256) == map[(97, 256) := 256, (98, 99) := 257]
  {
    TwoPairsSorted(merges);
    var sorted := [(97, 256), (98, 99)];
    assert Numbered(map[], sorted, 256) == Numbered(map[(97, 256) := 256], [(98, 99)], 257);
    assert [(98, 99)][1..] == [];
  }

  /** Building the vocabulary of the swapped merges meets (a, 256) before
      256 is defined. */
  lemma {:induction false} SwappedPanics()
    ensures VocabOf(map[(97, 256) := 256, (98, 99) := 257], map[]) == Err(MissingId(256))
  {
    var loaded := map[(97, 256) := 256, (98, 99) := 257];
    assert loaded.Keys == {(98, 99), (97, 256)};
    TwoPairsSorted(loaded);
    FirstMergePanics(loaded, [(97, 256), (98, 99)]);
  }

  /** `save_model` as evidently intended: the merge section lists the pairs
      in the order they were learned (ascending id). */
  function ModelLinesById(pattern: string, specials: map<string, int>, merges: map<Pair, int>): seq<string> {
    ModelLinesWith(pattern, specials, SortedById(merges))
  }

  /** Saved by id, the merges `train` learns load back unchanged. */
  lemma {:induction false} LoadSaveById(pattern: string, specials: map<string, int>, learned: seq<Pair>)
    requires Learnable(learned)
    requires Saveable(pattern, specials, learned)
    ensures var merges := Numbered(map[], learned, 256);
      ParseModel(Lines(JoinLines(ModelLinesById(pattern, specials, merges))))
      == Parsed(Loaded(pattern, specials, merges))
  {
    SortedByIdOfLearned(learned);
    LoadSaveWith(pattern, specials, learned);
  }

  /** With no special tokens, a one-line trimmed pattern and pairs of
      `i32` ids can be saved and read back. */
  lemma {:induction false} SaveableWithout(pattern: string, specials: map<string, int>, pairs: seq<Pair>)
    requires IsLine(pattern) && Trim(pattern) == pattern
    requires specials == map[]
    requires forall k :: 0 <= k < |pairs| ==> InI32(pairs[k].0) && InI32(pairs[k].1)
    ensures Saveable(pattern, specials, pairs)
  {
  }

  lemma {:induction false} LearnedInI32(learned: seq<Pair>, n: nat)
    requires Learnable(learned) && |learned| <= n && 256 + n <= I32Max + 1
    ensures forall k :: 0 <= k < |learned| ==> InI32(learned[k].0) && InI32(learned[k].1)
  {
  }

  /** With the vocabulary built in learning order, merges learned by
      `train` decode every encoding back to the text's bytes. */
  lemma {:induction false} LearnedRoundTrip(learned: seq<Pair>, t: string)
    requires Learnable(learned)
    ensures var merges := Numbered(map[], learned, 256);
      && VocabById(merges, map[]).Ok?
      && Flatten(VocabById(merges, map[]).value, Encoded(merges, AsBytes(t))) == Ok(AsBytes(t))
  {
    VocabByIdConsistent(learned);
    var v := LearnedVocab(learned);
    EncodeDecode(Numbered(map[], learned, 256), v, t);
  }

  /** Saved by id with `pattern` and loaded, `merges` come back unchanged,
      the vocabulary built from them in learning order succeeds, and it
      decodes the encoding of `t` back to `t`'s bytes. */
  ghost predicate SurvivesSaveLoad(pattern: string, merges: map<Pair, int>, t: string) {
    var loaded := ParseModel(Lines(JoinLines(ModelLinesById(pattern, map[], merges))));
    && loaded == Parsed(Loaded(pattern, map[], merges))
    && VocabById(loaded.model.merges, map[]).Ok?
    && Flatten(VocabById(loaded.model.merges, map[]).value, Encoded(loaded.model.merges, AsBytes(t)))
       == Ok(AsBytes(t))
  }

  /** Merges learned in `|learned|` rounds survive saving by id and
      loading. */
  lemma {:induction false} LearnedSaveLoad(pattern: string, learned: seq<Pair>, n: nat, t: string)
    requires Learnable(learned) && |learned| <= n && 256 + n <= I32Max + 1
    requires IsLine(pattern) && Trim(pattern) == pattern
    ensures SurvivesSaveLoad(pattern, Numbered(map[], learned, 256), t)
  {
    var none: map<string, int> := map[];
    LearnedInI32(learned, n);
    SaveableWithout(pattern, none, learned);
    LoadSaveById(pattern, none, learned);
    LearnedRoundTrip(learned, t);
  }

  /** A fresh tokenizer trained for `n` rounds, saved by id and loaded:
      the merges come back unchanged, the vocabulary built from them in
      learning order succeeds, and it decodes every encoding back to the
      text's bytes. */
  lemma {:induction false} TrainSaveLoadById(text: string, n: nat, verbose: bool, pattern: string, t: string)
    requires 256 + n <= I32Max + 1
    requires IsLine(pattern) && Trim(pattern) == pattern
    ensures SurvivesSaveLoad(pattern, Trained(Fresh(text), 0, n, verbose).0.merges, t)
  {
    var r := Trained(Fresh(text), 0, n, verbose).0;
    FreshLearned(text, n, verbose);
    LearnedSaveLoad(pattern, r.learned, n, t);
  }
}
