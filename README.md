# Byte-level BPE tokenizer, modelled in Dafny

This project models the byte-pair-encoding tokenizer of the Rust crate
`rust-llm` (`helpers.rs` and the `BPETokenizer` of `bpe.rs`) and the Python
`BPETokenizer` of `minbpe/bpe.py`. It proves properties of the model.

- **Training.** Training starts from the text's UTF-8 bytes. Round `i` merges the most frequent adjacent pair into the id `256 + i`, which is the next free id only on a new tokenizer (see below).
- **Encoding.** Encoding repeatedly merges the present pair with the lowest merge id.
- **Decoding.** Decoding concatenates the bytes each id stands for.
- **Saving and loading.** The Rust tokenizer also saves the model as a text file and loads it back. It rebuilds its vocabulary with `build_vocab`.

Modules:

- `Wrappers` (`wrappers.dfy`): `Option`, `Result`, and the `Error` values that stand for the source's panics, failed assertions and raised exceptions.
- `BTree` (`btree.dfy`): the iteration order of Rust's `BTreeMap`.
  - Keys come out in ascending `Ord` order: tuples lexicographically, `String`s by their bytes.
  - A map is a Dafny `map`, and its iteration is `SortedKeys` of its keys.
- `RustStr` (`rust_str.dfy`): the parts of Rust's `str`, `char` and `i32` that the tokenizer relies on.
  - `as_bytes` as UTF-8.
  - `char::is_whitespace`, `trim` and `split_whitespace`.
  - `i32` printing and `parse::<i32>`.
  - `BufRead::lines` and the text `writeln!` produces.
- `Helpers` (`helpers.dfy`): `get_stats`, `merge`, `build_vocab` and `b_as_literal`, each as a method with loops, proved against a specification function.
- `Bpe` (`bpe.dfy`): the Rust `BPETokenizer`, a class whose fields are updated in place.
  - `train`, `encode`, `decode`, `save_model` and `load_model` are methods.
  - A panic is an `Outcome` of `Fail(e)`. The fields keep whatever the source had already assigned when it panicked.
- `ModelFile` (`model_file.dfy`): what saving and loading the model file do together.
- `Minbpe` (`minbpe.dfy`): the Python `BPETokenizer`.
  - Python dictionaries iterate in insertion order.
  - `max` and `min` with a key return the first best element.
  - `train` builds new dictionaries and stores them only at the end.

Where the implementations differ, the model follows the code:

- **Training tie-break.** When several pairs share the highest count, the Rust `train` keeps the last of them in `BTreeMap` order, which is the greatest pair (`max_by_key` returns the last maximum). The Python `train` keeps the pair seen first in the text. A tie-break "by ascending pair order" is not what either implementation does. `Minbpe.TieBreaksDiffer` exhibits the difference on `"abcd"`.
- **Encoding rank.** The Rust `encode` ranks a pair without a merge as `i32::MAX`. The Python `encode` ranks it as infinity.
- **Missing parts in `build_vocab`.** A merge whose first part is missing is skipped silently. A merge whose second part is missing panics. No diagnostic is recorded.
- **Training a trained tokenizer.** The Rust `train` inserts into the tokenizer's existing merges and vocabulary and still numbers its merges from 256. Training again therefore reuses ids 256, 257, … and overwrites older tokens whose merges stay in the table (`Bpe.RetrainOverwrites`). The Python `train` builds new dictionaries and replaces the old ones. The Rust round-trip lemmas (`Bpe.FreshTrain`, `Bpe.FreshTrainRoundTrip`, `Bpe.EncodeTrainingText`, `Bpe.FreshVocabRebuilt`) are stated for training a new tokenizer only.
- **Merge order in the model file.** `save_model` writes the merge section in ascending pair order, not in learned order (see Findings).

## Model

| member | source | states |
|---|---|---|
| Helpers.GetStats | 002-Rust-bindings-to-Python/rust-llm/src/helpers.rs:8-15 | the counts map each adjacent pair of `ids` to the number of positions where it occurs, and holds no other pair |
| Helpers.StatsTotal | 002-Rust-bindings-to-Python/rust-llm/src/helpers.rs:8-15 | fewer than two ids give an empty map and vice versa; otherwise the counts add up to the `len - 1` windows |
| Helpers.StatsExample | 002-Rust-bindings-to-Python/rust-llm/src/helpers.rs:6-8 | `[1,2,3,1,2]` counts `(1,2)` twice and `(2,3)`, `(3,1)` once, as the comment above `get_stats` says |
| Helpers.Merge | 002-Rust-bindings-to-Python/rust-llm/src/helpers.rs:17-30 | the scan returns `Merged`: each match of the pair replaced by `idx`, left to right, resuming after the match |
| Helpers.MergeLength | 002-Rust-bindings-to-Python/rust-llm/src/helpers.rs:17-30 | the result is shorter by exactly the number of replacements, and strictly shorter if and only if the pair occurs |
| Helpers.MergeAbsent | 002-Rust-bindings-to-Python/rust-llm/src/helpers.rs:17-30 | a pair that does not occur leaves the ids unchanged |
| Helpers.MergeExpand | 002-Rust-bindings-to-Python/rust-llm/src/helpers.rs:17-30 | with a fresh `idx`, expanding every `idx` back into the pair recovers the input (merge is invertible) |
| Helpers.MergeNoOverlap | 002-Rust-bindings-to-Python/rust-llm/src/helpers.rs:21-23 | matches do not overlap: `5,5,5` with `(5,5)` becomes `99,5` |
| Helpers.MergedElems | 002-Rust-bindings-to-Python/rust-llm/src/helpers.rs:17-30 | every id of the result is `idx` or an id of the input |
| Helpers.MergedWindows | 002-Rust-bindings-to-Python/rust-llm/src/helpers.rs:17-30 | every adjacent pair of the result involves `idx` or was adjacent in the input and is not the merged pair |
| Helpers.ByteVocab | 002-Rust-bindings-to-Python/rust-llm/src/helpers.rs:33 | the starting vocabulary has exactly the ids 0..255, each standing for its own byte |
| Helpers.BuildVocab | 002-Rust-bindings-to-Python/rust-llm/src/helpers.rs:32-47 | returns `VocabOf`: byte entries, then the merges in pair order, then the special tokens in name order, or the panic at a missing second part |
| Helpers.MergeLoop | 002-Rust-bindings-to-Python/rust-llm/src/helpers.rs:34-41 | the merge loop visits pairs in ascending order, skips a merge whose first part is missing and panics on a missing second part |
| Helpers.OverlayLoop | 002-Rust-bindings-to-Python/rust-llm/src/helpers.rs:43-45 | the special-token loop writes each token's UTF-8 bytes at its id, in name order |
| Helpers.ApplyMergesShape | 002-Rust-bindings-to-Python/rust-llm/src/helpers.rs:34-41 | the merge loop only adds merge ids and leaves every other existing entry alone |
| Helpers.OverlayShape | 002-Rust-bindings-to-Python/rust-llm/src/helpers.rs:43-45 | the special-token loop adds exactly the special ids and leaves ids no token uses alone |
| Helpers.OverlayLastWins | 002-Rust-bindings-to-Python/rust-llm/src/helpers.rs:43-45 | a token's bytes stay at its id unless a later token in iteration order carries the same id |
| Helpers.VocabOfShape | 002-Rust-bindings-to-Python/rust-llm/src/helpers.rs:32-47 | a built vocabulary keeps all 256 bytes; each of its ids is a byte, merge or special id; an untouched byte still stands for itself; every special token has an entry |
| Helpers.VocabOfBytes | 002-Rust-bindings-to-Python/rust-llm/src/helpers.rs:33 | every byte id is present in a vocabulary `build_vocab` returns |
| Helpers.VocabOfSpecial | 002-Rust-bindings-to-Python/rust-llm/src/helpers.rs:43-45 | the greatest token name holding an id owns that id's bytes |
| Helpers.FirstMergePanics | 002-Rust-bindings-to-Python/rust-llm/src/helpers.rs:35-38 | a first merge of a byte with a not-yet-defined id panics at the second lookup |
| Helpers.BuildVocabPairOrderPanics | 002-Rust-bindings-to-Python/rust-llm/src/helpers.rs:34-41 | the learnable table `(98,99)→256, (97,256)→257` makes `build_vocab` panic on id 256, while learned order succeeds |
| Helpers.NumberedAt | 002-Rust-bindings-to-Python/rust-llm/src/bpe.rs:157-166 | numbering distinct pairs in order gives the k-th pair id `first + k` and keeps other entries |
| Helpers.SortedById | 002-Rust-bindings-to-Python/rust-llm/src/bpe.rs:110-112 | lists every pair of the merge table once, in ascending id order: the learned order the merge section is meant to have |
| Helpers.SortedByIdOfLearned | 002-Rust-bindings-to-Python/rust-llm/src/bpe.rs:51-57 | for pairs learned in order and numbered from 256, listing by id gives them back in learned order |
| Helpers.LearnedVocab | 002-Rust-bindings-to-Python/rust-llm/src/helpers.rs:32-47 | applied in learned order, learned merges give a vocabulary of exactly the ids below `256 + n`, each merge id standing for its parts |
| Helpers.AppliedUnique | 002-Rust-bindings-to-Python/rust-llm/src/helpers.rs:32-47 | the learned pairs determine the vocabulary built from them: two vocabularies where bytes stand for themselves and each merge id for its parts are equal |
| Helpers.VocabByIdConsistent | 002-Rust-bindings-to-Python/rust-llm/src/helpers.rs:32-47 | the corrected `build_vocab` succeeds on every table `train` learns and makes each merge id stand for its two parts |
| Helpers.BAsLiteral | 002-Rust-bindings-to-Python/rust-llm/src/helpers.rs:49-64 | returns `b"`, each byte rendered in turn, and `"` |
| Helpers.RenderByteMeaning | 002-Rust-bindings-to-Python/rust-llm/src/helpers.rs:54-60 | a graphic or whitespace ASCII byte prints as itself, any other as `\x` and two lower-case hex digits that spell its value |
| Helpers.HexRoundTrip | 002-Rust-bindings-to-Python/rust-llm/src/helpers.rs:58 | each hex digit printed reads back as its value |
| Helpers.LiteralLength | 002-Rust-bindings-to-Python/rust-llm/src/helpers.rs:50-63 | the literal has between `n + 3` and `4n + 3` characters |
| Helpers.LiteralAmbiguous | 002-Rust-bindings-to-Python/rust-llm/src/helpers.rs:54-60 | the byte 0 and the bytes `\x00` print alike, so the literal cannot be parsed back |
| Bpe.Tokenizer.constructor | 002-Rust-bindings-to-Python/rust-llm/src/bpe.rs:19-32 | no merges, empty pattern, no special tokens, and the 256 byte tokens |
| Bpe.Tokenizer.Train | 002-Rust-bindings-to-Python/rust-llm/src/bpe.rs:34-89 | `vocab_size < 256` fails the assertion and changes nothing; otherwise merges, vocabulary and outcome are those of `Trained` over `vocab_size - 256` rounds on the text's bytes |
| Bpe.Tokenizer.TrainRound | 002-Rust-bindings-to-Python/rust-llm/src/bpe.rs:51-79 | one round leaves the state of `TrainStep`, including a merge already inserted before a panic |
| Bpe.MostFrequent | 002-Rust-bindings-to-Python/rust-llm/src/bpe.rs:53 | the chosen pair has the highest count, and every other pair with that count is smaller |
| Bpe.LastMax | 002-Rust-bindings-to-Python/rust-llm/src/bpe.rs:53 | over ascending pairs, `max_by_key` returns a highest-count pair that is the last among equals |
| Bpe.RoundContinues | 002-Rust-bindings-to-Python/rust-llm/src/bpe.rs:51-79 | once every working id has a token, a round stores the new token and continues with the next round |
| Bpe.RoundKeeps | 002-Rust-bindings-to-Python/rust-llm/src/bpe.rs:55-66 | a round keeps what the working ids decode to, and every older token |
| Bpe.RoundConsistent | 002-Rust-bindings-to-Python/rust-llm/src/bpe.rs:55-66 | a round keeps every merge id standing for the bytes of its two parts |
| Bpe.TrainedOutcome | 002-Rust-bindings-to-Python/rust-llm/src/bpe.rs:51-79 | from a state where every working id has a token, training panics only when fewer than two ids remain, never on a vocabulary lookup |
| Bpe.TrainedLearned | 002-Rust-bindings-to-Python/rust-llm/src/bpe.rs:51-57 | learned pairs extend the earlier ones, at most one per round and exactly one per round when training completes, numbered in order |
| Bpe.TrainedKeeps | 002-Rust-bindings-to-Python/rust-llm/src/bpe.rs:51-79 | training keeps what the working ids decode to and changes no older token |
| Bpe.TrainedConsistent | 002-Rust-bindings-to-Python/rust-llm/src/bpe.rs:51-79 | training keeps every merge id standing for its two parts, and adds no id from `256 + n` on |
| Bpe.LearnRound | 002-Rust-bindings-to-Python/rust-llm/src/bpe.rs:52-57 | after a round the learned pair no longer occurs and no learned pair comes back |
| Bpe.TrainedLearnable | 002-Rust-bindings-to-Python/rust-llm/src/bpe.rs:51-79 | the pairs a run learns are all different, each made of ids that existed when it was learned |
| Bpe.TrainedAt | 002-Rust-bindings-to-Python/rust-llm/src/bpe.rs:51-79 | a run either ends in the round's panic state or continues from the round's next state |
| Bpe.TrainedStops | 002-Rust-bindings-to-Python/rust-llm/src/bpe.rs:51-53 | with no rounds left the run passes; with no pairs left it panics at `unwrap`; either way the state is unchanged |
| Bpe.Fresh | 002-Rust-bindings-to-Python/rust-llm/src/bpe.rs:45-46 | the starting state of training on a new tokenizer has a token for every working id |
| Bpe.FreshTrain | 002-Rust-bindings-to-Python/rust-llm/src/bpe.rs:34-89 | training a new tokenizer panics only when pairs run out; merge `256+k` is the k-th learned pair; no pair is learned twice; every merge id stands for its parts; the vocabulary holds exactly the bytes and one id per learned pair; every byte stands for itself |
| Bpe.FreshLearned | 002-Rust-bindings-to-Python/rust-llm/src/bpe.rs:51-57 | a new tokenizer's learned merges are at most `n` distinct pairs numbered from 256 in order |
| Bpe.FreshTrainRoundTrip | 002-Rust-bindings-to-Python/rust-llm/src/bpe.rs:34-97 | after `new` and `train`, decoding what `encode` returns for any text gives back its UTF-8 bytes |
| Bpe.RoundBuilt | 002-Rust-bindings-to-Python/rust-llm/src/bpe.rs:55-66 | a round from scratch stores the new token exactly as applying the learned pairs in order would |
| Bpe.TrainedBuilt | 002-Rust-bindings-to-Python/rust-llm/src/bpe.rs:51-79 | training from scratch leaves exactly the vocabulary that applying its learned pairs in order builds |
| Bpe.FreshVocabRebuilt | 002-Rust-bindings-to-Python/rust-llm/src/bpe.rs:34-89 | rebuilding a freshly trained tokenizer's vocabulary from its merges, in learned order, gives back exactly the vocabulary `train` built |
| Bpe.LearnedRanks | 002-Rust-bindings-to-Python/rust-llm/src/bpe.rs:51-57 | the pair learned in round `i` has merge id `256 + i`, lower than every other merge id present in that round's ids |
| Bpe.EncodedFixed | 002-Rust-bindings-to-Python/rust-llm/src/bpe.rs:185-199 | `encode` returns ids none of whose pairs has a merge unchanged |
| Bpe.EncodedStep | 002-Rust-bindings-to-Python/rust-llm/src/bpe.rs:185-207 | when one present pair has a strictly lower merge id than all others, `encode` merges it first |
| Bpe.EncodedRun | 002-Rust-bindings-to-Python/rust-llm/src/bpe.rs:34-213 | from any round of a run from scratch, `encode` with the final merges turns that round's ids into the ids the run ends with |
| Bpe.EncodeTrainingText | 002-Rust-bindings-to-Python/rust-llm/src/bpe.rs:34-213 | after `new` and `train(text, n)`, `encode(text)` returns exactly the ids training ended with |
| Bpe.RetrainOverwrites | 002-Rust-bindings-to-Python/rust-llm/src/bpe.rs:54-66 | a round numbers its merge `256 + i` whatever the tokenizer holds, so an older merge with that id and other bytes stops standing for its parts |
| Bpe.StrictTop | 002-Rust-bindings-to-Python/rust-llm/src/bpe.rs:53 | a pair whose count beats every other is the one merged |
| Bpe.TopOfTwo | 002-Rust-bindings-to-Python/rust-llm/src/bpe.rs:53 | of two pairs tied at the top count, the greater is merged |
| Bpe.AbcabcRound0 | 002-Rust-bindings-to-Python/rust-llm/src/bpe.rs:51-66 | on the bytes of `"abcabc"`, `(a,b)` and `(b,c)` tie and round 0 merges `(b,c)` into 256 |
| Bpe.AbcabcRound1 | 002-Rust-bindings-to-Python/rust-llm/src/bpe.rs:51-66 | round 1 then merges `(a,256)` into 257, leaving `[257,257]` |
| Bpe.AbcabcTrain | 002-Rust-bindings-to-Python/rust-llm/src/bpe.rs:34-89 | `train("abcabc", 258)` on a new tokenizer completes with merges `(98,99)→256, (97,256)→257` and the tokens `bc` and `abc` |
| Bpe.Tokenizer.Encode | 002-Rust-bindings-to-Python/rust-llm/src/bpe.rs:174-213 | returns `Encoded`: the text's bytes with the present pair of lowest merge id merged until none has a merge |
| Bpe.LowestRank | 002-Rust-bindings-to-Python/rust-llm/src/bpe.rs:191-195 | the chosen pair has the lowest merge id (`i32::MAX` when it has none), and every other pair with that rank is greater |
| Bpe.FirstMin | 002-Rust-bindings-to-Python/rust-llm/src/bpe.rs:191-195 | over ascending pairs, `min_by_key` returns a lowest-rank pair that is the first among equals |
| Bpe.EncodedIds | 002-Rust-bindings-to-Python/rust-llm/src/bpe.rs:174-213 | every id `encode` returns is a byte of the input or a merge id |
| Bpe.EncodedIrreducible | 002-Rust-bindings-to-Python/rust-llm/src/bpe.rs:185-199 | when no merge id is `i32::MAX`, no adjacent pair of the result has a merge |
| Bpe.EncodedFlatten | 002-Rust-bindings-to-Python/rust-llm/src/bpe.rs:185-207 | encoding leaves what the ids decode to unchanged when merge ids stand for their parts |
| Bpe.EncodeDecode | 002-Rust-bindings-to-Python/rust-llm/src/bpe.rs:174-213 | decoding `encode(text)` gives back the text's UTF-8 bytes |
| Bpe.Tokenizer.Decode | 002-Rust-bindings-to-Python/rust-llm/src/bpe.rs:91-97 | returns `Flatten`: the bytes of each id in turn, or a panic at the first unknown id; on a tokenizer holding every byte, byte ids always decode |
| Bpe.FlattenDefined | 002-Rust-bindings-to-Python/rust-llm/src/bpe.rs:93-95 | decoding succeeds exactly when every id is known, and otherwise names the first unknown id |
| Bpe.FlattenAppend | 002-Rust-bindings-to-Python/rust-llm/src/bpe.rs:93-95 | decoding a concatenation is the concatenation of the decodings |
| Bpe.MergePreservesFlatten | 002-Rust-bindings-to-Python/rust-llm/src/bpe.rs:93-95 | merging a pair into an id that stands for its bytes leaves the decoding unchanged |
| Bpe.FlattenBytes | 002-Rust-bindings-to-Python/rust-llm/src/bpe.rs:93-95 | byte ids decode to themselves |
| Bpe.Tokenizer.SaveModel | 002-Rust-bindings-to-Python/rust-llm/src/bpe.rs:99-112 | the text is the version, pattern and count lines, the special tokens in name order, then the merged pairs in pair order without their ids |
| Bpe.WriteSpecials | 002-Rust-bindings-to-Python/rust-llm/src/bpe.rs:106-108 | one `<name> <id>` line per special token, in order |
| Bpe.WriteMerges | 002-Rust-bindings-to-Python/rust-llm/src/bpe.rs:110-112 | one `<first> <second>` line per pair, in order |
| Bpe.ModelText | 002-Rust-bindings-to-Python/rust-llm/src/bpe.rs:102-112 | the file text is the three header lines followed by the two sections |
| Bpe.Tokenizer.LoadModel | 002-Rust-bindings-to-Python/rust-llm/src/bpe.rs:134-172 | a panic in the header changes nothing; a later panic leaves the pattern assigned; otherwise the pattern, special tokens and merges read are stored, and the vocabulary is rebuilt or its panic reported |
| Bpe.Tokenizer.Install | 002-Rust-bindings-to-Python/rust-llm/src/bpe.rs:146-170 | the fields take exactly what was read before the first panic |
| Bpe.Tokenizer.Assign | 002-Rust-bindings-to-Python/rust-llm/src/bpe.rs:168-170 | merges and special tokens are stored, and the vocabulary is the one built or stays unchanged on a panic |
| Bpe.ReadModel | 002-Rust-bindings-to-Python/rust-llm/src/bpe.rs:139-166 | reads as `ParseModel`: version compared trimmed, pattern trimmed, count parsed, special-token lines, then merge lines |
| Bpe.ReadSpecials | 002-Rust-bindings-to-Python/rust-llm/src/bpe.rs:148-155 | reads `count` special-token lines, failing on a missing line, field or bad id |
| Bpe.ReadMerges | 002-Rust-bindings-to-Python/rust-llm/src/bpe.rs:157-166 | numbers the remaining lines' pairs from 256 in file order, failing on a missing field or bad id |
| ModelFile.ParseSpecialLineOf | 002-Rust-bindings-to-Python/rust-llm/src/bpe.rs:152-154 | a written `<name> <id>` line reads back as that name and id |
| ModelFile.ParseMergeLineOf | 002-Rust-bindings-to-Python/rust-llm/src/bpe.rs:160-163 | a written `<first> <second>` line reads back as that pair |
| ModelFile.ParseSpecialEntriesOf | 002-Rust-bindings-to-Python/rust-llm/src/bpe.rs:151-155 | the written special-token lines read back as the same names and ids |
| ModelFile.ParseMergesOf | 002-Rust-bindings-to-Python/rust-llm/src/bpe.rs:157-166 | the written merge lines read back as the pairs numbered from 256 in file order |
| ModelFile.SpecialsSection | 002-Rust-bindings-to-Python/rust-llm/src/bpe.rs:148-155 | the special-token section reads back as the same tokens and leaves the following lines |
| ModelFile.HeaderOf | 002-Rust-bindings-to-Python/rust-llm/src/bpe.rs:143-148 | the written header lines pass the version check and read back as the pattern and the count |
| ModelFile.ModelLinesAreLines | 002-Rust-bindings-to-Python/rust-llm/src/bpe.rs:102-112 | every written line reads back as one line when the pattern is one line and token names have no whitespace |
| ModelFile.ParseModelLines | 002-Rust-bindings-to-Python/rust-llm/src/bpe.rs:139-166 | the lines of a model file read back as the same pattern and special tokens, with the pairs numbered from 256 in file order |
| ModelFile.LoadSave | 002-Rust-bindings-to-Python/rust-llm/src/bpe.rs:99-172 | as written, loading a saved model gives back the pattern, the special tokens and the same pairs, numbered from 256 in ascending pair order |
| ModelFile.SaveLoadSave | 002-Rust-bindings-to-Python/rust-llm/src/bpe.rs:99-172 | saving what was loaded writes the same file again |
| ModelFile.SaveLoadRenumbers | 002-Rust-bindings-to-Python/rust-llm/src/bpe.rs:99-172 | the table `train("abcabc", 258)` learns, `(98,99)→256, (97,256)→257`, comes back from saving and loading with the ids swapped, and rebuilding its vocabulary panics on id 256 |
| ModelFile.PairOrderLoad | 002-Rust-bindings-to-Python/rust-llm/src/bpe.rs:110-112 | whatever their ids, the pairs `(98,99)` and `(97,256)` are saved with `(97,256)` first and load as 256 and 257 |
| ModelFile.SwappedPanics | 002-Rust-bindings-to-Python/rust-llm/src/helpers.rs:34-41 | building the vocabulary of the swapped table meets `(97,256)` before 256 exists and panics |
| ModelFile.LoadSaveById | 002-Rust-bindings-to-Python/rust-llm/src/bpe.rs:99-172 | saved in learned order, a learned merge table loads back unchanged |
| ModelFile.LearnedRoundTrip | 002-Rust-bindings-to-Python/rust-llm/src/bpe.rs:91-97 | with the vocabulary built in learned order, learned merges decode every encoding back to the text's bytes |
| ModelFile.LearnedSaveLoad | 002-Rust-bindings-to-Python/rust-llm/src/bpe.rs:99-172 | learned merges saved in learned order load back unchanged, rebuild a vocabulary, and round-trip every text |
| ModelFile.TrainSaveLoadById | 002-Rust-bindings-to-Python/rust-llm/src/bpe.rs:34-172 | after `new`, `train`, saving in learned order and loading: the merges are unchanged, the vocabulary builds, and decoding `encode(t)` gives back `t`'s bytes |
| RustStr.ParseI32OfIntToString | 002-Rust-bindings-to-Python/rust-llm/src/bpe.rs:148 | an `i32` written with `{}` parses back as the same number |
| RustStr.LinesOfJoin | 002-Rust-bindings-to-Python/rust-llm/src/bpe.rs:142 | lines written with `writeln!` read back as the same lines when none holds a line feed or ends with a carriage return |
| RustStr.SplitTwoWords | 002-Rust-bindings-to-Python/rust-llm/src/bpe.rs:153 | a `"{} {}"` line of two words splits back into those two words |
| RustStr.Trim | 002-Rust-bindings-to-Python/rust-llm/src/bpe.rs:144-146 | the trimmed string neither starts nor ends with whitespace, and a string that does not is unchanged |
| RustStr.AsBytes | 002-Rust-bindings-to-Python/rust-llm/src/bpe.rs:45-46 | each character takes one to four UTF-8 bytes |
| Minbpe.Tokenizer.constructor | 002-Rust-bindings-to-Python/minbpe/bpe.py:18-19 | no merges, and the 256 byte tokens |
| Minbpe.Tokenizer.Train | 002-Rust-bindings-to-Python/minbpe/bpe.py:21-61 | `vocab_size < 256` fails the assertion; a raise in any round leaves the tokenizer unchanged; otherwise merges and vocabulary are those of `PyTrained` |
| Minbpe.PyTrainRound | 002-Rust-bindings-to-Python/minbpe/bpe.py:34-54 | one loop body gives `PyStep`'s state or its error |
| Minbpe.Chosen | 002-Rust-bindings-to-Python/minbpe/bpe.py:40 | the pair `max(stats, key=stats.get)` returns, which `train` merges: it occurs and has the highest count |
| Minbpe.FirstMaxAt | 002-Rust-bindings-to-Python/minbpe/bpe.py:40 | `max` with a key returns a highest position, every earlier one strictly lower |
| Minbpe.FirstSeen | 002-Rust-bindings-to-Python/minbpe/bpe.py:37 | the count dictionary's keys are every adjacent pair, each once |
| Minbpe.FirstSeenInOrder | 002-Rust-bindings-to-Python/minbpe/bpe.py:37 | the keys come in order of first occurrence: a key listed earlier already occurs before every place a later key occurs |
| Minbpe.ChosenFirst | 002-Rust-bindings-to-Python/minbpe/bpe.py:40 | of the pairs sharing the highest count, `max` picks the one seen first: every other such pair occurs only after it has occurred |
| Minbpe.PyRound | 002-Rust-bindings-to-Python/minbpe/bpe.py:34-54 | from a fitting state a round raises nothing, records the chosen pair as `256 + i` and keeps the decoding |
| Minbpe.PyTrainedFacts | 002-Rust-bindings-to-Python/minbpe/bpe.py:34-54 | rounds raise only when pairs run out; a completed run keeps the decoding and numbers its pairs in order |
| Minbpe.PyFreshTrain | 002-Rust-bindings-to-Python/minbpe/bpe.py:21-61 | training raises only when pairs run out; otherwise it learns `n` distinct pairs numbered from 256, each merge id standing for its parts and each byte for itself |
| Minbpe.TieBreaksDiffer | 002-Rust-bindings-to-Python/minbpe/bpe.py:40 | on `"abcd"` the Rust `train` learns `(c,d)` and the Python `train` learns `(a,b)` |
| Minbpe.AbcdPythonChoice | 002-Rust-bindings-to-Python/minbpe/bpe.py:40 | on the bytes of `"abcd"` Python's `max` picks `(a,b)` |
| Minbpe.AbcdRustChoice | 002-Rust-bindings-to-Python/rust-llm/src/bpe.rs:53 | on the bytes of `"abcd"` `max_by_key` picks `(c,d)` although `(a,b)` ties |
| Minbpe.GreatestOfTies | 002-Rust-bindings-to-Python/rust-llm/src/bpe.rs:53 | when every count ties, `max_by_key` keeps the greatest pair |
| Minbpe.Tokenizer.Encode | 002-Rust-bindings-to-Python/minbpe/bpe.py:69-86 | returns `PyEncoded`: the text's bytes with the present pair of lowest merge id merged until none has a merge |
| Minbpe.Cheapest | 002-Rust-bindings-to-Python/minbpe/bpe.py:76-82 | the pair `min` returns in `encode`: it occurs; it has no merge only when no pair has one, and otherwise has the lowest merge id |
| Minbpe.FirstMinAt | 002-Rust-bindings-to-Python/minbpe/bpe.py:76 | `min` with a key returns a lowest position, every earlier one strictly higher |
| Minbpe.PyEncodedIrreducible | 002-Rust-bindings-to-Python/minbpe/bpe.py:73-86 | no adjacent pair of the result has a merge |
| Minbpe.PyEncodedFlatten | 002-Rust-bindings-to-Python/minbpe/bpe.py:69-86 | encoding leaves what the ids decode to unchanged when merge ids stand for their parts |
| Minbpe.SameEncoding | 002-Rust-bindings-to-Python/minbpe/bpe.py:69-86 | with distinct merge ids below `i32::MAX`, the Rust and Python `encode` return the same ids |
| Minbpe.PyTrainSameEncoding | 002-Rust-bindings-to-Python/minbpe/bpe.py:21-86 | after a successful `train`, the Rust and Python `encode` agree on the learned table |
| Minbpe.LearnedIds | 002-Rust-bindings-to-Python/minbpe/bpe.py:43-48 | learned pairs get distinct ids below `256 + n` |
| Minbpe.PyEncodedStep | 002-Rust-bindings-to-Python/minbpe/bpe.py:73-85 | when one present pair has a strictly lower merge id than all others, `encode` merges it first |
| Minbpe.PyEncodedRun | 002-Rust-bindings-to-Python/minbpe/bpe.py:21-86 | from any round of a successful run, `encode` with the final merges turns that round's ids into the ids the run ends with |
| Minbpe.PyEncodeTrainingText | 002-Rust-bindings-to-Python/minbpe/bpe.py:21-86 | after a successful `train(text, n)`, `encode(text)` returns exactly the ids training ended with |
| Minbpe.PyTrainRoundTrip | 002-Rust-bindings-to-Python/minbpe/bpe.py:21-86 | after a successful `train`, decoding `encode(t)` gives back `t`'s UTF-8 bytes |
| Minbpe.Tokenizer.Decode | 002-Rust-bindings-to-Python/minbpe/bpe.py:63-67 | decoding succeeds exactly when every id is in the vocabulary |

## Left out

- File I/O. `save_model` is modelled as the text of the `.model` file. `load_model` is modelled on the text of the file. Opening, creating and writing files and the `std::io::Result` errors are not modelled. Neither is the mismatch between the `.model` suffix added on save and the bare prefix opened on load.
- The `.vocab` file that `save_model` writes (`bpe.rs:114-131`) and `render_token` / `replace_control_characters` (`helpers.rs:66-84`). That output is never read back.
- The lossy UTF-8 conversion at the end of `decode` (Rust `from_utf8_lossy`, Python `errors="replace"`). `decode` is modelled up to the byte string.
- The Python bindings (`pyo3`, `prepare_freethreaded_python`), `lib.rs`, and every debug or verbose `println!` / `print`. In Rust `train`, `verbose` still matters: its report reads `vocab[&idx]`, which panics when the new token was not stored. That lookup is modelled.
- The split pattern. It is stored, saved and loaded, but never applied to text.
- Special tokens in `encode`. Neither implementation recognises them.
- The Python `Tokenizer` base class and `minbpe/helpers.py` are not part of this model.
  - `Minbpe.Tokenizer.constructor` assumes the base class starts with no merges and the 256 byte tokens.
  - `Minbpe.FirstSeen` assumes `get_stats` counts pairs into a dictionary in order of first occurrence.
  - `Minbpe.Tokenizer` carries only the `merges` and `vocab` fields that `bpe.py` uses.
  - Python's `merge` and the pair counts of `get_stats` are assumed to compute what the Rust `merge` and `get_stats` do. `Minbpe` uses `Helpers.Merged` and `Helpers.Stats` for them.
- Python strings holding lone surrogates, such as `"\ud800"`. On them `text.encode("utf-8")` raises `UnicodeEncodeError`, in `train` (`bpe.py:28`, before any round) and in `encode` (`bpe.py:71`). The model's text is a sequence of Unicode scalar values, which cannot hold a surrogate, so that error is not modelled.
- Bpe.Tokenizer.Train: requires `vocab_size <= 2^31`, so merge ids `256 + i as i32` stay within `i32`. The wrap-around of that cast and of the `idx += 1` counter in `load_model` is not modelled. Ids are unbounded integers, and the input byte ids of `encode` are bytes.
- ModelFile.TrainSaveLoadById: requires `256 + n <= 2^31`, and the same bound appears in `ModelFile.LearnedSaveLoad`. It also requires a one-line, trimmed pattern, because a pattern with surrounding whitespace or a line break does not survive the trimmed reload.
- Minbpe.PyTrainSameEncoding: requires merge ids below `i32::MAX`, where the Rust rank of a pair without a merge would tie with a real merge id.
- Bpe.EncodedIrreducible: requires merge ids below `i32::MAX` for the same reason.

## Findings

| source | as written | input that shows it | evidently intended | confidence | as-written member | corrected member |
|---|---|---|---|---|---|---|
| 002-Rust-bindings-to-Python/rust-llm/src/helpers.rs:34-41 | `build_vocab` applies the merges in ascending pair order, so a merge can be applied before the merge that defines one of its parts; the lookup `vocab[&p1]` then panics (or, for a missing first part, the merge is skipped) | the merge table `(98,99)→256, (97,256)→257`, which a new tokenizer learns from `"abcabc"` with `vocab_size = 258`: `(97,256)` comes first and 256 is not yet defined | merges applied in the order they were learned, i.e. ascending merge id, so every part exists when it is used | not executed; high | Helpers.BuildVocabPairOrderPanics | Helpers.VocabByIdConsistent |
| 002-Rust-bindings-to-Python/rust-llm/src/bpe.rs:110-112 | `save_model` writes the merge section in ascending pair order while `load_model` numbers the lines 256, 257, … in file order, so loading renumbers the merges and the rebuilt vocabulary can panic | `train("abcabc", 258)` on a new tokenizer, then `save_model` and `load_model`: the table `(98,99)→256, (97,256)→257` is saved as `97 256` then `98 99`, it loads as `(97,256)→256, (98,99)→257`, and `build_vocab` panics on 256 | the merge section written in learned order, so that the ids come back unchanged and the reloaded tokenizer encodes and decodes as before | not executed; high | ModelFile.SaveLoadRenumbers | ModelFile.TrainSaveLoadById |

The corrected definitions are `Helpers.VocabById`, `Helpers.SortedById` and
`ModelFile.ModelLinesById`. The lemmas in the "corrected member" column prove
the intended round trip about them, and `Bpe.FreshVocabRebuilt` proves that
the corrected `build_vocab` rebuilds a trained vocabulary exactly. The `Bpe.Tokenizer` class itself keeps
the as-written behaviour: its `SaveModel` and `LoadModel` describe what the
code does.
