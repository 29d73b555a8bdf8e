/** The Rust `BPETokenizer`: training, encoding and decoding over the
    shared helpers. */
module Bpe {
  import opened Wrappers
  import opened BTree
  import opened RustStr
  import opened Helpers

  /** How a tokenizer operation ended: normally, or by a panic. */
  datatype Outcome = Pass | Fail(error: Error)

  // ---------------------------------------------------------------------
  // decode

  /** Concatenation of two decodings, the first failure winning. */
  function Join(a: Result<seq<byte>>, b: Result<seq<byte>>): Result<seq<byte>> {
    if a.Err? then a else if b.Err? then b else Ok(a.value + b.value)
  }

  /** What `decode` computes before the lossy UTF-8 conversion: the bytes of
      each id in turn, or a panic at the first id the vocabulary lacks. */
  function Flatten(vocab: Vocab, ids: seq<int>): (r: Result<seq<byte>>)
    decreases |ids|
  {
    if ids == [] then Ok([])
    else
      var last := ids[|ids| - 1];
      match Flatten(vocab, ids[..|ids| - 1])
      case Err(e) => Err(e)
      case Ok(front) => if last !in vocab then Err(MissingId(last)) else Ok(front + vocab[last])
  }

  /** Decoding succeeds exactly when every id is known, and otherwise names
      the first unknown id. */
  lemma {:induction false} FlattenDefined(vocab: Vocab, ids: seq<int>)
    ensures Flatten(vocab, ids).Ok? <==> forall k :: 0 <= k < |ids| ==> ids[k] in vocab
    ensures Flatten(vocab, ids).Err? ==>
      exists k :: 0 <= k < |ids| && Flatten(vocab, ids).error == MissingId(ids[k]) && ids[k] !in vocab &&
        (forall j :: 0 <= j < k ==> ids[j] in vocab)
    decreases |ids|
  {
    if ids != [] {
      var front := ids[..|ids| - 1];
      FlattenDefined(vocab, front);
      assert forall k :: 0 <= k < |front| ==> front[k] == ids[k];
    }
  }

  lemma {:induction false} FlattenAppend(vocab: Vocab, a: seq<int>, b: seq<int>)
    ensures Flatten(vocab, a + b) == Join(Flatten(vocab, a), Flatten(vocab, b))
    decreases |b|
  {
    if b == [] {
      assert a + b == a;
      if Flatten(vocab, a).Ok? { assert Flatten(vocab, a).value + [] == Flatten(vocab, a).value; }
    } else {
      var b' := b[..|b| - 1];
      assert (a + b)[..|a + b| - 1] == a + b';
      FlattenAppend(vocab, a, b');
      if Flatten(vocab, a).Ok? && Flatten(vocab, b').Ok? && b[|b| - 1] in vocab {
        var x, y, z := Flatten(vocab, a).value, Flatten(vocab, b').value, vocab[b[|b| - 1]];
        assert (x + y) + z == x + (y + z);
      }
    }
  }

  lemma {:induction false} FlattenOne(vocab: Vocab, id: int)
    ensures Flatten(vocab, [id]) == if id in vocab then Ok(vocab[id]) else Err(MissingId(id))
  {
    assert [id][..0] == [];
    if id in vocab { assert [] + vocab[id] == vocab[id]; }
  }

  /** Replacing a pair by an id that stands for its bytes leaves the
      decoding unchanged. */
  lemma {:induction false} MergePreservesFlatten(vocab: Vocab, ids: seq<int>, p: Pair, idx: int)
    requires idx in vocab && p.0 in vocab && p.1 in vocab
    requires vocab[idx] == vocab[p.0] + vocab[p.1]
    ensures Flatten(vocab, Merged(ids, p, idx)) == Flatten(vocab, ids)
    decreases |ids|
  {
    if ids != [] {
      if |ids| >= 2 && ids[0] == p.0 && ids[1] == p.1 {
        MergePreservesFlatten(vocab, ids[2..], p, idx);
        FlattenAppend(vocab, [idx], Merged(ids[2..], p, idx));
        assert ids == [p.0, p.1] + ids[2..];
        FlattenAppend(vocab, [p.0, p.1], ids[2..]);
        FlattenAppend(vocab, [p.0], [p.1]);
        assert [p.0] + [p.1] == [p.0, p.1];
        FlattenOne(vocab, idx);
        FlattenOne(vocab, p.0);
        FlattenOne(vocab, p.1);
      } else {
        MergePreservesFlatten(vocab, ids[1..], p, idx);
        FlattenAppend(vocab, [ids[0]], Merged(ids[1..], p, idx));
        assert ids == [ids[0]] + ids[1..];
        FlattenAppend(vocab, [ids[0]], ids[1..]);
      }
    }
  }

  /** Over a vocabulary where every byte stands for itself, decoding bytes
      gives them back. */
  lemma {:induction false} FlattenBytes(vocab: Vocab, bytes: seq<byte>)
    requires forall b :: 0 <= b < 256 ==> b in vocab && vocab[b] == [b]
    ensures Flatten(vocab, bytes) == Ok(bytes)
    decreases |bytes|
  {
    if bytes != [] {
      var front := bytes[..|bytes| - 1];
      var last := bytes[|bytes| - 1];
      assert Flatten(vocab, front) == Ok(front) by { FlattenBytes(vocab, front); }
      assert Flatten(vocab, [last]) == Ok([last]) by { FlattenOne(vocab, last); }
      assert bytes == front + [last];
      FlattenAppend(vocab, front, [last]);
    }
  }

  // ---------------------------------------------------------------------
  // Pair selection

  /** `max_by_key` over pairs in ascending order: the highest count, and of
      the pairs sharing it the last, i.e. the greatest. */
  function LastMax(stats: map<Pair, nat>, keys: seq<Pair>): (m: Pair)
    requires keys != [] && forall k :: k in keys ==> k in stats
    requires StrictlySorted(keys, PairLt)
    ensures m in keys
    ensures forall q :: q in keys ==> stats[q] <= stats[m]
    ensures forall q :: q in keys && stats[q] == stats[m] ==> q == m || PairLt(q, m)
    decreases |keys|
  {
    if |keys| == 1 then keys[0]
    else
      var front := keys[..|keys| - 1];
      var last := keys[|keys| - 1];
      assert forall q :: q in keys ==> q in front || q == last;
      var m := LastMax(stats, front);
      if stats[last] >= stats[m] then last else m
  }

  /** The pair `train` merges next. */
  function MostFrequent(stats: map<Pair, nat>): (p: Pair)
    requires stats != map[]
    ensures p in stats
    ensures forall q :: q in stats ==> stats[q] <= stats[p]
    ensures forall q :: q in stats && stats[q] == stats[p] ==> q == p || PairLt(q, p)
  {
    var keys := SortedPairs(stats.Keys);
    assert keys != [] by { var q :| q in stats; assert q in keys; }
    LastMax(stats, keys)
  }

  /** The key `encode` minimises: the pair's merge id, `i32::MAX` when the
      pair has none. */
  function Rank(merges: map<Pair, int>, p: Pair): int {
    if p in merges then merges[p] else I32Max
  }

  /** `min_by_key` over pairs in ascending order: the lowest rank, and of
      the pairs sharing it the first, i.e. the least. */
  function FirstMin(merges: map<Pair, int>, keys: seq<Pair>): (m: Pair)
    requires keys != [] && StrictlySorted(keys, PairLt)
    ensures m in keys
    ensures forall q :: q in keys ==> Rank(merges, m) <= Rank(merges, q)
    ensures forall q :: q in keys && Rank(merges, q) == Rank(merges, m) ==> q == m || PairLt(m, q)
    decreases |keys|
  {
    if |keys| == 1 then keys[0]
    else
      var front := keys[..|keys| - 1];
      var last := keys[|keys| - 1];
      assert forall q :: q in keys ==> q in front || q == last;
      var m := FirstMin(merges, front);
      if Rank(merges, last) < Rank(merges, m) then last else m
  }

  /** The pair `encode` considers next. */
  function LowestRank(merges: map<Pair, int>, stats: map<Pair, nat>): (p: Pair)
    requires stats != map[]
    ensures p in stats
    ensures forall q :: q in stats ==> Rank(merges, p) <= Rank(merges, q)
    ensures forall q :: q in stats && Rank(merges, q) == Rank(merges, p) ==> q == p || PairLt(p, q)
  {
    var keys := SortedPairs(stats.Keys);
    assert keys != [] by { var q :| q in stats; assert q in keys; }
    FirstMin(merges, keys)
  }

  // ---------------------------------------------------------------------
  // encode

  lemma {:induction false} WindowParts(ids: seq<int>, p: Pair)
    requires p in Windows(ids)
    ensures exists k :: 0 <= k < |ids| - 1 && ids[k] == p.0 && ids[k + 1] == p.1
  {
  }

  /** The ids `encode` returns for the given byte ids: merge the present
      pair of lowest merge id until the chosen pair has no merge or fewer
      than two ids remain. */
  function Encoded(merges: map<Pair, int>, ids: seq<int>): seq<int>
    decreases |ids|
  {
    if |ids| < 2 then ids
    else
      StatsTotal(ids);
      var p := LowestRank(merges, Stats(ids));
      if p !in merges then ids
      else
        WindowOccurs(ids, p);
        MergeLength(ids, p, merges[p]);
        Encoded(merges, Merged(ids, p, merges[p]))
  }

  /** Every id `encode` returns is one of its input or a merge id. */
  lemma {:induction false} EncodedIds(merges: map<Pair, int>, ids: seq<int>)
    ensures forall x :: x in Encoded(merges, ids) ==> x in ids || x in merges.Values
    decreases |ids|
  {
    if |ids| >= 2 {
      StatsTotal(ids);
      var p := LowestRank(merges, Stats(ids));
      if p in merges {
        WindowOccurs(ids, p);
        MergeLength(ids, p, merges[p]);
        var next := Merged(ids, p, merges[p]);
        EncodedIds(merges, next);
        MergedElems(ids, p, merges[p]);
      }
    }
  }

  /** When no merge id is `i32::MAX`, `encode` stops only when no adjacent
      pair of its result has a merge. */
  lemma {:induction false} EncodedIrreducible(merges: map<Pair, int>, ids: seq<int>)
    requires forall p :: p in merges ==> merges[p] < I32Max
    ensures forall w :: w in Windows(Encoded(merges, ids)) ==> w !in merges
    decreases |ids|
  {
    if |ids| >= 2 {
      StatsTotal(ids);
      var p := LowestRank(merges, Stats(ids));
      if p in merges {
        WindowOccurs(ids, p);
        MergeLength(ids, p, merges[p]);
        EncodedIrreducible(merges, Merged(ids, p, merges[p]));
      } else {
        forall w | w in Windows(ids) ensures w !in merges {
          assert w in Stats(ids);
        }
      }
    }
  }

  /** Encoding never changes what the ids decode to, as long as every merge
      id stands for its two parts. */
  lemma {:induction false} EncodedFlatten(merges: map<Pair, int>, vocab: Vocab, ids: seq<int>)
    requires Consistent(merges, vocab)
    ensures Flatten(vocab, Encoded(merges, ids)) == Flatten(vocab, ids)
    decreases |ids|
  {
    if |ids| >= 2 {
      StatsTotal(ids);
      var p := LowestRank(merges, Stats(ids));
      if p in merges {
        WindowOccurs(ids, p);
        MergeLength(ids, p, merges[p]);
        MergePreservesFlatten(vocab, ids, p, merges[p]);
        EncodedFlatten(merges, vocab, Merged(ids, p, merges[p]));
      }
    }
  }

  /** Decoding what `encode` returns gives back the text's UTF-8 bytes. */
  lemma {:induction false} EncodeDecode(merges: map<Pair, int>, vocab: Vocab, text: string)
    requires Consistent(merges, vocab)
    requires forall b :: 0 <= b < 256 ==> b in vocab && vocab[b] == [b]
    ensures Flatten(vocab, Encoded(merges, AsBytes(text))) == Ok(AsBytes(text))
  {
    EncodedFlatten(merges, vocab, AsBytes(text));
    FlattenBytes(vocab, AsBytes(text));
  }

  // ---------------------------------------------------------------------
  // train

  /** Everything a training run has produced so far: the working ids, the
      tokenizer's merges and vocabulary, and the pairs learned in order. */
  datatype TrainState = TrainState(ids: seq<int>, merges: map<Pair, int>, vocab: Vocab, learned: seq<Pair>)

  /** How one round of `train` ends: with the state the next round starts
      from, or with a panic and the state it leaves. */
  datatype RoundEnd = Continue(next: TrainState) | Stop(last: TrainState, outcome: Outcome)

  /** Round `i` of `train`: merge the most frequent pair into id `256 + i`.
      The merge is recorded before `vocab[&pair.1]` is read, so a panic
      there leaves it in place; the new token is stored only when `pair.0`
      has one, and the verbose report reads it back. */
  function TrainStep(st: TrainState, i: nat, verbose: bool): RoundEnd {
    var stats := Stats(st.ids);
    if stats == map[] then Stop(st, Fail(NoPairs))
    else
      var p := MostFrequent(stats);
      var idx := 256 + i;
      var ids := Merged(st.ids, p, idx);
      var merges := st.merges[p := idx];
      var learned := st.learned + [p];
      if p.1 !in st.vocab then Stop(TrainState(ids, merges, st.vocab, learned), Fail(MissingId(p.1)))
      else
        var vocab := if p.0 in st.vocab then st.vocab[idx := st.vocab[p.0] + st.vocab[p.1]] else st.vocab;
        var next := TrainState(ids, merges, vocab, learned);
        if verbose && idx !in vocab then Stop(next, Fail(MissingId(idx)))
        else Continue(next)
  }

  /** Rounds `i` up to `n` of `train`, with the state they leave behind and
      how they end. */
  function Trained(st: TrainState, i: nat, n: nat, verbose: bool): (TrainState, Outcome)
    requires i <= n
    decreases n - i
  {
    if i == n then (st, Pass)
    else
      match TrainStep(st, i, verbose)
      case Stop(last, o) => (last, o)
      case Continue(next) => Trained(next, i + 1, n, verbose)
  }

  /** Before round `i`: every working id has a token and was made before
      this round. */
  ghost predicate Progress(st: TrainState, i: nat) {
    forall k :: 0 <= k < |st.ids| ==> st.ids[k] in st.vocab && 0 <= st.ids[k] < 256 + i
  }

  /** Both parts of a pair that occurs in the working ids have tokens and
      were made before round `i`. */
  lemma {:induction false} PairParts(st: TrainState, i: nat, p: Pair)
    requires Progress(st, i) && p in Windows(st.ids)
    ensures p.0 in st.vocab && p.1 in st.vocab && 0 <= p.0 < 256 + i && 0 <= p.1 < 256 + i
  {
    WindowParts(st.ids, p);
    var k :| 0 <= k < |st.ids| - 1 && st.ids[k] == p.0 && st.ids[k + 1] == p.1;
  }

  lemma {:induction false} ChosenParts(st: TrainState, i: nat)
    requires Progress(st, i) && Stats(st.ids) != map[]
    ensures var p := MostFrequent(Stats(st.ids));
      p in Windows(st.ids) && p.0 in st.vocab && p.1 in st.vocab && 0 <= p.0 < 256 + i && 0 <= p.1 < 256 + i
  {
    var p := MostFrequent(Stats(st.ids));
    assert p in Windows(st.ids);
    PairParts(st, i, p);
  }

  /** The state after round `i` merges `p`, a pair of the working ids, into
      the new token `256 + i`. */
  ghost function MergeRound(st: TrainState, i: nat, p: Pair): TrainState
    requires Progress(st, i) && p in Windows(st.ids)
  {
    PairParts(st, i, p);
    var idx := 256 + i;
    TrainState(Merged(st.ids, p, idx), st.merges[p := idx],
               st.vocab[idx := st.vocab[p.0] + st.vocab[p.1]], st.learned + [p])
  }

  /** The state after round `i` of `train`, once every working id has a
      token. */
  ghost function Round(st: TrainState, i: nat): TrainState
    requires Progress(st, i) && Stats(st.ids) != map[]
  {
    ChosenParts(st, i);
    MergeRound(st, i, MostFrequent(Stats(st.ids)))
  }

  /** After a round, every working id again has a token made before the
      next round. */
  lemma {:induction false} RoundProgress(st: TrainState, i: nat, p: Pair)
    requires Progress(st, i) && p in Windows(st.ids)
    ensures Progress(MergeRound(st, i, p), i + 1)
  {
    var idx := 256 + i;
    PairParts(st, i, p);
    var next := MergeRound(st, i, p);
    var ids := next.ids;
    assert idx !in st.ids;
    MergedElems(st.ids, p, idx);
    forall k | 0 <= k < |ids| ensures ids[k] in next.vocab && 0 <= ids[k] < 256 + i + 1 {
      assert ids[k] in ids;
      if ids[k] != idx {
        var j :| 0 <= j < |st.ids| && st.ids[j] == ids[k];
      }
    }
  }

  /** One round of `train` once every working id has a token: both parts
      of the chosen pair have tokens, so the round stores the new token and
      goes on. */
  lemma {:induction false} RoundContinues(st: TrainState, i: nat, n: nat, verbose: bool)
    requires i < n && Progress(st, i) && Stats(st.ids) != map[]
    ensures Trained(st, i, n, verbose) == Trained(Round(st, i), i + 1, n, verbose)
    ensures Progress(Round(st, i), i + 1)
  {
    ChosenParts(st, i);
    RoundProgress(st, i, MostFrequent(Stats(st.ids)));
  }

  /** A round keeps what the working ids decode to, and every older token. */
  lemma {:induction false} RoundKeeps(st: TrainState, i: nat, p: Pair)
    requires Progress(st, i) && p in Windows(st.ids)
    ensures Flatten(MergeRound(st, i, p).vocab, MergeRound(st, i, p).ids) == Flatten(st.vocab, st.ids)
    ensures forall id :: id in st.vocab && id < 256 + i ==>
      id in MergeRound(st, i, p).vocab && MergeRound(st, i, p).vocab[id] == st.vocab[id]
  {
    var idx := 256 + i;
    PairParts(st, i, p);
    var t := st.vocab[p.0] + st.vocab[p.1];
    assert idx !in st.ids;
    FlattenFrame(st.vocab, st.ids, idx, t);
    MergePreservesFlatten(st.vocab[idx := t], st.ids, p, idx);
  }

  /** A round keeps every merge id standing for its two parts. */
  lemma {:induction false} RoundConsistent(st: TrainState, i: nat, p: Pair)
    requires Progress(st, i) && p in Windows(st.ids)
    requires Consistent(st.merges, st.vocab)
    requires forall id :: id in st.vocab ==> id < 256 + i
    ensures Consistent(MergeRound(st, i, p).merges, MergeRound(st, i, p).vocab)
    ensures forall id :: id in MergeRound(st, i, p).vocab ==> id < 256 + i + 1
  {
    PairParts(st, i, p);
    var next := MergeRound(st, i, p);
    forall q | q in next.merges
      ensures next.merges[q] in next.vocab && q.0 in next.vocab && q.1 in next.vocab
      ensures next.vocab[next.merges[q]] == next.vocab[q.0] + next.vocab[q.1]
    {
      if q != p {
        assert q in st.merges && next.merges[q] == st.merges[q];
      }
    }
  }

  /** A round numbers its merge `256 + i` whatever the tokenizer already
      holds. So training on top of earlier merges reuses their ids: an older
      merge that holds id `256 + i` for other bytes no longer stands for its
      parts. */
  lemma {:induction false} RetrainOverwrites(st: TrainState, i: nat, q: Pair)
    requires Progress(st, i) && Stats(st.ids) != map[]
    requires q in st.merges && st.merges[q] == 256 + i && q != MostFrequent(Stats(st.ids))
    requires q.0 in st.vocab && q.1 in st.vocab && q.0 != 256 + i && q.1 != 256 + i
    requires var p := MostFrequent(Stats(st.ids));
      p.0 in st.vocab && p.1 in st.vocab && st.vocab[q.0] + st.vocab[q.1] != st.vocab[p.0] + st.vocab[p.1]
    ensures !Consistent(Round(st, i).merges, Round(st, i).vocab)
  {
    var next := Round(st, i);
    assert next.merges[q] == 256 + i;
  }

  /** Once every working id has a token, a training run never panics on a
      lookup: only when the text runs out of pairs. */
  lemma {:induction false} TrainedOutcome(st: TrainState, i: nat, n: nat, verbose: bool)
    requires i <= n && Progress(st, i)
    ensures var r := Trained(st, i, n, verbose);
      && (r.1 == Pass || r.1 == Fail(NoPairs))
      && (r.1 == Fail(NoPairs) ==> |r.0.ids| < 2)
    decreases n - i
  {
    StatsTotal(st.ids);
    if i < n && Stats(st.ids) != map[] {
      RoundContinues(st, i, n, verbose);
      var next := Round(st, i);
      TrainedOutcome(next, i + 1, n, verbose);
    }
  }

  /** The pairs a training run learns are numbered from `256 + i` in order,
      one per round when it completes. */
  lemma {:induction false} TrainedLearned(st: TrainState, i: nat, n: nat, verbose: bool)
    requires i <= n && Progress(st, i)
    ensures var r := Trained(st, i, n, verbose);
      && |st.learned| <= |r.0.learned| && r.0.learned[..|st.learned|] == st.learned
      && |r.0.learned| - |st.learned| <= n - i
      && (r.1 == Pass ==> |r.0.learned| - |st.learned| == n - i)
      && r.0.merges == Numbered(st.merges, r.0.learned[|st.learned|..], 256 + i)
    decreases n - i
  {
    StatsTotal(st.ids);
    if i < n && Stats(st.ids) != map[] {
      RoundContinues(st, i, n, verbose);
      var next := Round(st, i);
      var p := MostFrequent(Stats(st.ids));
      TrainedLearned(next, i + 1, n, verbose);
      var r := Trained(next, i + 1, n, verbose).0;
      LearnedStep(st.learned, p, r.learned);
    }
  }

  lemma {:induction false} LearnedStep(before: seq<Pair>, p: Pair, after: seq<Pair>)
    requires |before| + 1 <= |after| && after[..|before| + 1] == before + [p]
    ensures after[..|before|] == before
    ensures var rest := after[|before|..]; rest != [] && rest[0] == p && rest[1..] == after[|before| + 1..]
  {
    var k := |before|;
    assert after[k] == (after[..k + 1])[k];
    assert after[..k] == (after[..k + 1])[..k];
  }

  /** Training keeps what the working ids decode to, and changes no token
      made before round `i`. */
  lemma {:induction false} TrainedKeeps(st: TrainState, i: nat, n: nat, verbose: bool)
    requires i <= n && Progress(st, i)
    ensures var r := Trained(st, i, n, verbose).0;
      && Flatten(r.vocab, r.ids) == Flatten(st.vocab, st.ids)
      && (forall id :: id in st.vocab && id < 256 + i ==> id in r.vocab && r.vocab[id] == st.vocab[id])
    decreases n - i
  {
    StatsTotal(st.ids);
    if i < n && Stats(st.ids) != map[] {
      RoundContinues(st, i, n, verbose);
      var next := Round(st, i);
      ChosenParts(st, i);
      RoundKeeps(st, i, MostFrequent(Stats(st.ids)));
      TrainedKeeps(next, i + 1, n, verbose);
    }
  }

  /** Setting an id that does not occur leaves a decoding unchanged. */
  lemma {:induction false} FlattenFrame(vocab: Vocab, ids: seq<int>, id: int, t: seq<byte>)
    requires id !in ids
    ensures Flatten(vocab[id := t], ids) == Flatten(vocab, ids)
    decreases |ids|
  {
    if ids != [] {
      FlattenFrame(vocab, ids[..|ids| - 1], id, t);
    }
  }

  /** Training from a state whose tokens all predate round `i` keeps every
      merge id standing for its two parts, and makes no id from round `n`
      on. */
  lemma {:induction false} TrainedConsistent(st: TrainState, i: nat, n: nat, verbose: bool)
    requires i <= n && Progress(st, i)
    requires Consistent(st.merges, st.vocab)
    requires forall id :: id in st.vocab ==> id < 256 + i
    ensures Consistent(Trained(st, i, n, verbose).0.merges, Trained(st, i, n, verbose).0.vocab)
    ensures forall id :: id in Trained(st, i, n, verbose).0.vocab ==> id < 256 + n
    decreases n - i
  {
    StatsTotal(st.ids);
    if i < n && Stats(st.ids) != map[] {
      RoundContinues(st, i, n, verbose);
      ChosenParts(st, i);
      RoundConsistent(st, i, MostFrequent(Stats(st.ids)));
      TrainedConsistent(Round(st, i), i + 1, n, verbose);
    }
  }

  /** Learning one more pair that is new and made of existing ids. */
  lemma {:induction false} LearnableSnoc(learned: seq<Pair>, p: Pair)
    requires Learnable(learned) && p !in learned
    requires 0 <= p.0 < 256 + |learned| && 0 <= p.1 < 256 + |learned|
    ensures Learnable(learned + [p])
  {
  }

  /** What a training run keeps about the pairs it learns before round
      `i`: every working id has a token, and the `i` pairs learned are all
      different, made of older ids and gone from the working ids. */
  ghost predicate Learning(st: TrainState, i: nat) {
    && Progress(st, i)
    && |st.learned| == i && Learnable(st.learned)
    && (forall q :: q in st.learned ==> q !in Windows(st.ids))
  }

  /** A round keeps `Learning`: merging leaves no match of the pair behind
      and brings no two older ids together, so the pair never comes back. */
  lemma {:induction false} LearnRound(st: TrainState, i: nat, p: Pair)
    requires Learning(st, i) && p in Windows(st.ids)
    ensures Learning(MergeRound(st, i, p), i + 1)
  {
    PairParts(st, i, p);
    RoundProgress(st, i, p);
    var idx := 256 + i;
    LearnableSnoc(st.learned, p);
    MergedWindows(st.ids, p, idx);
    forall q | q in st.learned + [p] ensures q !in Windows(Merged(st.ids, p, idx)) {
      if q != p {
        var j :| 0 <= j < |st.learned| && st.learned[j] == q;
      }
    }
  }

  /** The pairs a run learns from scratch are all different, and each is
      made of ids that existed when it was learned. */
  lemma {:induction false} TrainedLearnable(st: TrainState, i: nat, n: nat, verbose: bool)
    requires i <= n && Learning(st, i)
    ensures Learnable(Trained(st, i, n, verbose).0.learned)
    decreases n - i
  {
    if i < n && Stats(st.ids) != map[] {
      LearnStep(st, i, n, verbose);
      TrainedLearnable(Round(st, i), i + 1, n, verbose);
    } else {
      TrainedStops(st, i, n, verbose);
    }
  }

  lemma {:induction false} LearnStep(st: TrainState, i: nat, n: nat, verbose: bool)
    requires i < n && Learning(st, i) && Stats(st.ids) != map[]
    ensures Trained(st, i, n, verbose) == Trained(Round(st, i), i + 1, n, verbose)
    ensures Learning(Round(st, i), i + 1)
  {
    ChosenParts(st, i);
    RoundContinues(st, i, n, verbose);
    LearnRound(st, i, MostFrequent(Stats(st.ids)));
  }

  /** `Trained` after one more round. */
  lemma {:induction false} TrainedAt(st: TrainState, i: nat, n: nat, verbose: bool)
    requires i < n
    ensures match TrainStep(st, i, verbose)
      case Stop(last, o) => Trained(st, i, n, verbose) == (last, o)
      case Continue(next) => Trained(st, i, n, verbose) == Trained(next, i + 1, n, verbose)
  {
  }

  /** A run with no rounds left, or whose text has run out of pairs,
      leaves the state as it is. */
  lemma {:induction false} TrainedStops(st: TrainState, i: nat, n: nat, verbose: bool)
    requires i <= n && (i == n || Stats(st.ids) == map[])
    ensures Trained(st, i, n, verbose) == (st, if i == n then Pass else Fail(NoPairs))
  {
  }

  /** The state `new` leaves and `train` starts from. */
  function Fresh(text: string): (st: TrainState)
    ensures Progress(st, 0)
  {
    var st := TrainState(AsBytes(text), map[], ByteVocab(), []);
    assert forall k :: 0 <= k < |st.ids| ==> 0 <= st.ids[k] < 256;
    st
  }

  /** Training a new tokenizer: it panics only when the text runs out of
      pairs; merge `256 + k` is the k-th pair learned, no pair is learned
      twice, every merge id stands for its two parts and every byte still
      stands for itself. */
  lemma {:induction false} FreshTrain(text: string, n: nat, verbose: bool)
    ensures var r := Trained(Fresh(text), 0, n, verbose);
      && (r.1 == Pass || r.1 == Fail(NoPairs))
      && |r.0.learned| <= n
      && (r.1 == Pass ==> |r.0.learned| == n)
      && r.0.merges == Numbered(map[], r.0.learned, 256)
      && Learnable(r.0.learned)
      && Consistent(r.0.merges, r.0.vocab)
      && (forall id :: id in r.0.vocab <==> 0 <= id < 256 + |r.0.learned|)
      && (forall b :: 0 <= b < 256 ==> b in r.0.vocab && r.0.vocab[b] == [b])
  {
    var st := Fresh(text);
    var r := Trained(st, 0, n, verbose);
    assert (r.1 == Pass || r.1 == Fail(NoPairs)) by {
      TrainedOutcome(st, 0, n, verbose);
    }
    assert r.1 == Pass ==> |r.0.learned| == n by {
      TrainedLearned(st, 0, n, verbose);
    }
    FreshLearned(text, n, verbose);
    assert Consistent(r.0.merges, r.0.vocab) by {
      TrainedConsistent(st, 0, n, verbose);
    }
    assert forall b :: 0 <= b < 256 ==> b in r.0.vocab && r.0.vocab[b] == [b] by {
      TrainedKeeps(st, 0, n, verbose);
    }
    assert forall id :: id in r.0.vocab <==> 0 <= id < 256 + |r.0.learned| by {
      FreshLearning(text);
      TrainedBuilt(st, 0, n, verbose);
    }
  }

  /** The merges of a fresh tokenizer after `train`: at most `n` pairs,
      learned in order, numbered from 256. */
  lemma {:induction false} FreshLearned(text: string, n: nat, verbose: bool)
    ensures var r := Trained(Fresh(text), 0, n, verbose).0;
      && |r.learned| <= n
      && r.merges == Numbered(map[], r.learned, 256)
      && Learnable(r.learned)
  {
    var st := Fresh(text);
    var r := Trained(st, 0, n, verbose).0;
    assert |r.learned| <= n && r.merges == Numbered(map[], r.learned, 256) by {
      TrainedLearned(st, 0, n, verbose);
      assert r.learned[0..] == r.learned;
    }
    TrainedLearnable(st, 0, n, verbose);
  }

  /** After `new` and `train`, decoding what `encode` returns for any text
      gives back that text's UTF-8 bytes. */
  lemma {:induction false} FreshTrainRoundTrip(text: string, n: nat, verbose: bool, t: string)
    ensures var r := Trained(Fresh(text), 0, n, verbose).0;
      Flatten(r.vocab, Encoded(r.merges, AsBytes(t))) == Ok(AsBytes(t))
  {
    FreshTrain(text, n, verbose);
    var r := Trained(Fresh(text), 0, n, verbose).0;
    EncodeDecode(r.merges, r.vocab, t);
  }

  /** A round from scratch builds the new token exactly as applying the
      learned pairs in order would. */
  lemma {:induction false} RoundBuilt(st: TrainState, i: nat, p: Pair)
    requires Learning(st, i) && p in Windows(st.ids)
    requires AppliedUpTo(st.vocab, st.learned, i)
    ensures AppliedUpTo(MergeRound(st, i, p).vocab, MergeRound(st, i, p).learned, i + 1)
  {
    var pairs := st.learned + [p];
    LearnRound(st, i, p);
    assert AppliedUpTo(st.vocab, pairs, i) by {
      assert forall j :: 0 <= j < i ==> pairs[j] == st.learned[j];
    }
    AppliedStep(st.vocab, pairs, i);
  }

  /** Training from scratch leaves the vocabulary that applying its learned
      pairs in order builds. */
  lemma {:induction false} TrainedBuilt(st: TrainState, i: nat, n: nat, verbose: bool)
    requires i <= n && Learning(st, i) && AppliedUpTo(st.vocab, st.learned, i)
    ensures var r := Trained(st, i, n, verbose).0;
      AppliedUpTo(r.vocab, r.learned, |r.learned|)
    decreases n - i
  {
    if i < n && Stats(st.ids) != map[] {
      LearnStep(st, i, n, verbose);
      ChosenParts(st, i);
      RoundBuilt(st, i, MostFrequent(Stats(st.ids)));
      TrainedBuilt(Round(st, i), i + 1, n, verbose);
    } else {
      TrainedStops(st, i, n, verbose);
    }
  }

  /** Rebuilding the vocabulary of a freshly trained tokenizer from its
      merges, in the order they were learned, gives back exactly the
      vocabulary `train` built: the same ids and the same bytes. */
  lemma {:induction false} FreshVocabRebuilt(text: string, n: nat, verbose: bool)
    ensures var r := Trained(Fresh(text), 0, n, verbose).0;
      VocabById(r.merges, map[]) == Ok(r.vocab)
  {
    var st := Fresh(text);
    var r := Trained(st, 0, n, verbose).0;
    FreshLearning(text);
    TrainedBuilt(st, 0, n, verbose);
    FreshLearned(text, n, verbose);
    var v := LearnedVocab(r.learned);
    AppliedUnique(v, r.vocab, r.learned);
  }

  /** Encoding the training text replays the training run. The pair
      learned in round `i` occurs in that round's ids, and the pairs
      learned before it do not. So in the numbered table it has the lowest
      merge id of all pairs present. */
  lemma {:induction false} LearnedRanks(learned: seq<Pair>, i: nat, ids: seq<int>)
    requires Learnable(learned) && i < |learned|
    requires learned[i] in Windows(ids)
    requires forall j :: 0 <= j < i ==> learned[j] !in Windows(ids)
    ensures var m := Numbered(map[], learned, 256);
      && learned[i] in m && m[learned[i]] == 256 + i
      && forall q :: q in Windows(ids) && q in m && q != learned[i] ==> 256 + i < m[q] < 256 + |learned|
  {
    var m := Numbered(map[], learned, 256);
    NumberedAt(map[], learned, 256);
    NumberedKeys(map[], learned, 256);
    forall q | q in Windows(ids) && q in m && q != learned[i] ensures 256 + i < m[q] < 256 + |learned| {
      var j :| 0 <= j < |learned| && learned[j] == q;
    }
  }

  /** `encode` leaves ids none of whose pairs has a merge as they are. */
  lemma {:induction false} EncodedFixed(merges: map<Pair, int>, ids: seq<int>)
    requires forall q :: q in Windows(ids) ==> q !in merges
    ensures Encoded(merges, ids) == ids
  {
    if |ids| >= 2 {
      StatsTotal(ids);
      assert LowestRank(merges, Stats(ids)) in Windows(ids);
    }
  }

  /** When one present pair has a lower merge id than every other present
      pair, `encode` merges it first. */
  lemma {:induction false} EncodedStep(merges: map<Pair, int>, ids: seq<int>, p: Pair)
    requires p in Windows(ids) && p in merges && merges[p] < I32Max
    requires forall q :: q in Windows(ids) && q in merges && q != p ==> merges[p] < merges[q]
    ensures Encoded(merges, ids) == Encoded(merges, Merged(ids, p, merges[p]))
  {
    WindowParts(ids, p);
    StatsTotal(ids);
    var m := LowestRank(merges, Stats(ids));
    assert p in Stats(ids) && Rank(merges, m) <= Rank(merges, p);
    assert m in Windows(ids);
  }

  lemma {:induction false} PrefixSnoc(s: seq<Pair>, i: nat, prefix: seq<Pair>, p: Pair)
    requires |prefix| == i < |s| && s[..i + 1] == prefix + [p]
    ensures s[i] == p && forall j :: 0 <= j < i ==> s[j] == prefix[j]
  {
    assert s[i] == s[..i + 1][i];
    forall j | 0 <= j < i ensures s[j] == prefix[j] {
      assert s[j] == s[..i + 1][j];
    }
  }

  /** What round `i` of a run from scratch knows of the pairs `learned`
      it goes on to learn, `p` first: the pairs learned before round `i`
      occur nowhere in its ids. */
  lemma {:induction false} LearnedBefore(st: TrainState, i: nat, p: Pair, learned: seq<Pair>)
    requires Learning(st, i) && i < |learned| && learned[..i + 1] == st.learned + [p]
    ensures learned[i] == p && forall j :: 0 <= j < i ==> learned[j] !in Windows(st.ids)
  {
    PrefixSnoc(learned, i, st.learned, p);
    assert forall j :: 0 <= j < i ==> learned[j] in st.learned;
  }

  /** The first step of `encode` on ids holding the i-th of the pairs
      `learned` and none before it, under the merges numbered from
      `learned`: it merges that pair into `256 + i`. */
  lemma {:induction false} ReplayStep(ids: seq<int>, i: nat, learned: seq<Pair>)
    requires Learnable(learned) && i < |learned| && 256 + |learned| <= I32Max
    requires learned[i] in Windows(ids)
    requires forall j :: 0 <= j < i ==> learned[j] !in Windows(ids)
    ensures var m := Numbered(map[], learned, 256);
      Encoded(m, ids) == Encoded(m, Merged(ids, learned[i], 256 + i))
  {
    var m := Numbered(map[], learned, 256);
    var p := learned[i];
    assert p in m && m[p] == 256 + i < I32Max
      && forall q :: q in Windows(ids) && q in m && q != p ==> m[p] < m[q]
    by {
      LearnedRanks(learned, i, ids);
    }
    EncodedStep(m, ids, p);
  }

  /** What a run from round `i` keeps of the pair round `i` learns. */
  lemma {:induction false} RunLearned(st: TrainState, i: nat, n: nat, verbose: bool)
    requires i < n && Learning(st, i) && Stats(st.ids) != map[]
    ensures var r := Trained(st, i, n, verbose).0;
      && i < |r.learned| && r.learned[..i + 1] == st.learned + [MostFrequent(Stats(st.ids))]
      && |r.learned| <= n && Learnable(r.learned)
  {
    LearnStep(st, i, n, verbose);
    TrainedLearned(Round(st, i), i + 1, n, verbose);
    TrainedLearnable(Round(st, i), i + 1, n, verbose);
  }

  /** One round of the replay: `encode` from round `i` goes through the
      ids of round `i + 1`. */
  lemma {:induction false} EncodedRunStep(st: TrainState, i: nat, n: nat, verbose: bool)
    requires i < n && Learning(st, i) && Stats(st.ids) != map[] && 256 + n <= I32Max
    ensures var m := Numbered(map[], Trained(st, i, n, verbose).0.learned, 256);
      Encoded(m, st.ids) == Encoded(m, Round(st, i).ids)
  {
    ChosenParts(st, i);
    RunLearned(st, i, n, verbose);
    var learned := Trained(st, i, n, verbose).0.learned;
    LearnedBefore(st, i, MostFrequent(Stats(st.ids)), learned);
    ReplayStep(st.ids, i, learned);
  }

  /** From any round of a run from scratch, `encode` with the final merges
      turns that round's ids into the ids the run ends with. */
  lemma {:induction false} EncodedRun(st: TrainState, i: nat, n: nat, verbose: bool)
    requires i <= n && Learning(st, i) && 256 + n <= I32Max
    ensures var r := Trained(st, i, n, verbose).0;
      Encoded(Numbered(map[], r.learned, 256), st.ids) == r.ids
    decreases n - i
  {
    if i < n && Stats(st.ids) != map[] {
      LearnStep(st, i, n, verbose);
      EncodedRun(Round(st, i), i + 1, n, verbose);
      EncodedRunStep(st, i, n, verbose);
    } else {
      EncodedRunDone(st, i, n, verbose);
    }
  }

  /** A run that has stopped leaves ids `encode` has nothing to merge in. */
  lemma {:induction false} EncodedRunDone(st: TrainState, i: nat, n: nat, verbose: bool)
    requires i <= n && Learning(st, i) && (i == n || Stats(st.ids) == map[])
    ensures var r := Trained(st, i, n, verbose).0;
      Encoded(Numbered(map[], r.learned, 256), st.ids) == r.ids
  {
    TrainedStops(st, i, n, verbose);
    NumberedKeys(map[], st.learned, 256);
    EncodedFixed(Numbered(map[], st.learned, 256), st.ids);
  }

  /** Encoding the text a new tokenizer was trained on gives exactly the
      ids training ended with. */
  lemma {:induction false} EncodeTrainingText(text: string, n: nat, verbose: bool)
    requires 256 + n <= I32Max
    ensures var r := Trained(Fresh(text), 0, n, verbose).0;
      Encoded(r.merges, AsBytes(text)) == r.ids
  {
    FreshLearning(text);
    EncodedRun(Fresh(text), 0, n, verbose);
    FreshLearned(text, n, verbose);
  }

  /** The state `train` starts from on a new tokenizer has learned nothing
      and holds the byte tokens only. */
  lemma {:induction false} FreshLearning(text: string)
    ensures Learning(Fresh(text), 0)
    ensures AppliedUpTo(Fresh(text).vocab, Fresh(text).learned, 0)
  {
    var none: seq<Pair> := [];
    assert Learnable(none);
  }

  // ---------------------------------------------------------------------
  // A worked example: training on "abcabc"

  /** A pair whose count beats every other is the one `train` merges. */
  lemma {:induction false} StrictTop(stats: map<Pair, nat>, p: Pair)
    requires p in stats
    requires forall q :: q in stats && q != p ==> stats[q] < stats[p]
    ensures MostFrequent(stats) == p
  {
  }

  /** Of two pairs sharing a count every other pair falls below, `train`
      merges the greater. */
  lemma {:induction false} TopOfTwo(stats: map<Pair, nat>, p: Pair, q: Pair)
    requires p in stats && q in stats && stats[q] == stats[p] && PairLt(q, p)
    requires forall r :: r in stats && r != p && r != q ==> stats[r] < stats[p]
    ensures MostFrequent(stats) == p
  {
    var m := MostFrequent(stats);
    assert m == p || m == q;
  }

  /** The windows of the bytes of "abcabc". */
  lemma {:induction false} AbcabcWindows()
    ensures AsBytes("abcabc") == [97, 98, 99, 97, 98, 99]
    ensures Windows([97, 98, 99, 97, 98, 99]) == {(97, 98), (98, 99), (99, 97)}
  {
    var ids := [97, 98, 99, 97, 98, 99];
    assert (ids[0], ids[1]) == (97, 98) && (ids[1], ids[2]) == (98, 99) && (ids[2], ids[3]) == (99, 97);
  }

  /** `Count` adds one window per element. */
  lemma {:induction false} CountSnoc(s: seq<int>, x: int, p: Pair)
    requires |s| >= 1
    ensures Count(s + [x], p) == Count(s, p) + (if (s[|s| - 1], x) == p then 1 else 0)
  {
    assert (s + [x])[..|s|] == s;
  }

  /** How often a pair occurs in the bytes of "abcabc". */
  lemma {:induction false} AbcabcCount(p: Pair)
    ensures Count([97, 98, 99, 97, 98, 99], p)
      == (if p == (97, 98) || p == (98, 99) then 2 else if p == (99, 97) then 1 else 0)
  {
    CountSnoc([97], 98, p);
    CountSnoc([97, 98], 99, p);
    CountSnoc([97, 98, 99], 97, p);
    CountSnoc([97, 98, 99, 97], 98, p);
    CountSnoc([97, 98, 99, 97, 98], 99, p);
    assert [97] + [98] == [97, 98] && [97, 98] + [99] == [97, 98, 99];
    assert [97, 98, 99] + [97] == [97, 98, 99, 97] && [97, 98, 99, 97] + [98] == [97, 98, 99, 97, 98];
    assert [97, 98, 99, 97, 98] + [99] == [97, 98, 99, 97, 98, 99];
  }

  /** The bytes of "abcabc": `(a, b)` and `(b, c)` occur twice, and every
      other pair less often. */
  lemma {:induction false} AbcabcCounts(ids: seq<int>)
    requires ids == [97, 98, 99, 97, 98, 99]
    ensures var s := Stats(ids);
      && (97, 98) in s && (98, 99) in s && s[(97, 98)] == 2 && s[(98, 99)] == 2
      && forall r :: r in s && r != (97, 98) && r != (98, 99) ==> s[r] < 2
  {
    AbcabcWindows();
    AbcabcCount((97, 98));
    AbcabcCount((98, 99));
    AbcabcCount((99, 97));
  }

  /** How often a pair occurs after merging `(b, c)` into 256. */
  lemma {:induction false} AbabCount(p: Pair)
    ensures Count([97, 256, 97, 256], p) == (if p == (97, 256) then 2 else if p == (256, 97) then 1 else 0)
  {
    CountSnoc([97], 256, p);
    CountSnoc([97, 256], 97, p);
    CountSnoc([97, 256, 97], 256, p);
    assert [97] + [256] == [97, 256] && [97, 256] + [97] == [97, 256, 97];
    assert [97, 256, 97] + [256] == [97, 256, 97, 256];
  }

  /** After merging `(b, c)` into 256: `(a, 256)` occurs twice, and every
      other pair less often. */
  lemma {:induction false} AbabCounts(ids: seq<int>)
    requires ids == [97, 256, 97, 256]
    ensures var s := Stats(ids);
      && (97, 256) in s && s[(97, 256)] == 2
      && forall r :: r in s && r != (97, 256) ==> s[r] < 2
  {
    assert Windows(ids) == {(97, 256), (256, 97)} by {
      assert (ids[0], ids[1]) == (97, 256) && (ids[1], ids[2]) == (256, 97) && (ids[2], ids[3]) == (97, 256);
    }
    AbabCount((97, 256));
    AbabCount((256, 97));
  }

  /** Merging `(b, c)` into 256 in the bytes of "abcabc". */
  lemma {:induction false} AbcabcMerge(ids: seq<int>, p: Pair)
    requires ids == [97, 98, 99, 97, 98, 99] && p == (98, 99)
    ensures Merged(ids, p, 256) == [97, 256, 97, 256]
  {
    MergedAt(ids, 0, p, 256);
    MergedAt(ids, 1, p, 256);
    MergedAt(ids, 3, p, 256);
    MergedAt(ids, 4, p, 256);
    assert ids[0..] == ids && ids[6..] == [];
  }

  /** Merging `(a, 256)` into 257 after that. */
  lemma {:induction false} AbabMerge(ids: seq<int>, p: Pair)
    requires ids == [97, 256, 97, 256] && p == (97, 256)
    ensures Merged(ids, p, 257) == [257, 257]
  {
    assert ids[2..] == [97, 256] && [97, 256][2..] == [];
  }

  /** The state after the first round of `train` on "abcabc", from the
      byte vocabulary `base`. */
  function AbcabcFirst(base: Vocab): TrainState {
    TrainState([97, 256, 97, 256], map[(98, 99) := 256], base[256 := [98, 99]], [(98, 99)])
  }

  /** The state after the second round of `train` on "abcabc". */
  function AbcabcSecond(base: Vocab): TrainState {
    TrainState([257, 257], map[(98, 99) := 256, (97, 256) := 257],
               base[256 := [98, 99]][257 := [97, 98, 99]], [(98, 99), (97, 256)])
  }

  /** In the bytes of "abcabc", `(a, b)` and `(b, c)` tie, so `train` merges
      the greater, `(b, c)`. */
  lemma {:induction false} AbcabcChoice(ids: seq<int>)
    requires ids == [97, 98, 99, 97, 98, 99]
    ensures Stats(ids) != map[] && MostFrequent(Stats(ids)) == (98, 99)
    ensures (98, 99) in Windows(ids)
  {
    AbcabcCounts(ids);
    TopOfTwo(Stats(ids), (98, 99), (97, 98));
  }

  /** After that merge, `(a, 256)` occurs most often. */
  lemma {:induction false} AbabChoice(ids: seq<int>)
    requires ids == [97, 256, 97, 256]
    ensures Stats(ids) != map[] && MostFrequent(Stats(ids)) == (97, 256)
    ensures (97, 256) in Windows(ids)
  {
    AbabCounts(ids);
    StrictTop(Stats(ids), (97, 256));
  }

  /** The state round 0 leaves after merging `(b, c)`. */
  lemma {:induction false} AbcabcMergeRound(st0: TrainState, base: Vocab)
    requires forall b :: 0 <= b < 256 ==> b in base && base[b] == [b]
    requires st0 == TrainState([97, 98, 99, 97, 98, 99], map[], base, [])
    requires Progress(st0, 0) && (98, 99) in Windows(st0.ids)
    ensures MergeRound(st0, 0, (98, 99)) == AbcabcFirst(base)
  {
    var r := MergeRound(st0, 0, (98, 99));
    AbcabcMerge(st0.ids, (98, 99));
    assert r.ids == [97, 256, 97, 256];
    assert base[98] == [98] && base[99] == [99];
    assert [98] + [99] == [98, 99];
    assert r.vocab == base[256 := [98, 99]];
  }

  /** The state round 1 leaves after merging `(a, 256)`. */
  lemma {:induction false} AbabMergeRound(st1: TrainState, base: Vocab)
    requires forall b :: 0 <= b < 256 ==> b in base && base[b] == [b]
    requires st1 == AbcabcFirst(base)
    requires Progress(st1, 1) && (97, 256) in Windows(st1.ids)
    ensures MergeRound(st1, 1, (97, 256)) == AbcabcSecond(base)
  {
    var r := MergeRound(st1, 1, (97, 256));
    AbabMerge(st1.ids, (97, 256));
    assert r.ids == [257, 257];
    assert base[97] == [97];
    assert st1.vocab[97] == [97] && st1.vocab[256] == [98, 99];
    assert [97] + [98, 99] == [97, 98, 99];
    assert r.vocab == base[256 := [98, 99]][257 := [97, 98, 99]];
  }

  /** Round 0 on "abcabc" makes `(b, c)` 256. */
  lemma {:induction false} AbcabcRound0(st0: TrainState, base: Vocab, n: nat, verbose: bool)
    requires forall b :: 0 <= b < 256 ==> b in base && base[b] == [b]
    requires st0 == TrainState([97, 98, 99, 97, 98, 99], map[], base, []) && n >= 1
    ensures Trained(st0, 0, n, verbose) == Trained(AbcabcFirst(base), 1, n, verbose)
  {
    assert Progress(st0, 0);
    AbcabcChoice(st0.ids);
    RoundContinues(st0, 0, n, verbose);
    assert Round(st0, 0) == MergeRound(st0, 0, (98, 99));
    AbcabcMergeRound(st0, base);
  }

  /** Round 1 on "abcabc" makes `(a, 256)` 257, after which only
      `(257, 257)` is left. */
  lemma {:induction false} AbcabcRound1(st1: TrainState, base: Vocab, n: nat, verbose: bool)
    requires forall b :: 0 <= b < 256 ==> b in base && base[b] == [b]
    requires st1 == AbcabcFirst(base) && n >= 2
    ensures Trained(st1, 1, n, verbose) == Trained(AbcabcSecond(base), 2, n, verbose)
  {
    assert Progress(st1, 1);
    AbabChoice(st1.ids);
    RoundContinues(st1, 1, n, verbose);
    assert Round(st1, 1) == MergeRound(st1, 1, (97, 256));
    AbabMergeRound(st1, base);
  }

  /** Two rounds of `train` on a new tokenizer and "abcabc" learn `(b, c)`
      as 256 and then `(a, 256)` as 257, and leave `[257, 257]`. */
  lemma {:induction false} AbcabcTrain(verbose: bool)
    ensures Trained(Fresh("abcabc"), 0, 2, verbose) == (AbcabcSecond(ByteVocab()), Pass)
  {
    var base := ByteVocab();
    AbcabcWindows();
    var st0 := Fresh("abcabc");
    assert st0 == TrainState([97, 98, 99, 97, 98, 99], map[], base, []);
    AbcabcRound0(st0, base, 2, verbose);
    AbcabcRound1(AbcabcFirst(base), base, 2, verbose);
    TrainedStops(AbcabcSecond(base), 2, 2, verbose);
  }

  // ---------------------------------------------------------------------
  // The model file

  /** First line of every model file. */
  const Version: string := "minbpe v1"

  /** The `<name> <id>` line of a special token. */
  function SpecialLine(name: string, id: int): string {
    name + " " + IntToString(id)
  }

  /** One `<name> <id>` line per special token, in the given order. */
  function SpecialLines(specials: map<string, int>, names: seq<string>): (r: seq<string>)
    requires forall t :: t in names ==> t in specials
    ensures |r| == |names|
    decreases |names|
  {
    if names == [] then []
    else [SpecialLine(names[0], specials[names[0]])] + SpecialLines(specials, names[1..])
  }

  lemma {:induction false} SpecialLinesAt(specials: map<string, int>, names: seq<string>, k: nat)
    requires (forall t :: t in names ==> t in specials) && k < |names|
    ensures SpecialLines(specials, names)[k] == SpecialLine(names[k], specials[names[k]])
    decreases k
  {
    var rest := SpecialLines(specials, names[1..]);
    assert SpecialLines(specials, names) == [SpecialLine(names[0], specials[names[0]])] + rest;
    if k > 0 {
      SpecialLinesAt(specials, names[1..], k - 1);
      assert names[1..][k - 1] == names[k];
    }
  }

  /** The `<first> <second>` line of a merged pair. */
  function MergeLine(p: Pair): string {
    IntToString(p.0) + " " + IntToString(p.1)
  }

  /** One `<first> <second>` line per merged pair, in the given order. */
  function MergeLines(pairs: seq<Pair>): (r: seq<string>)
    ensures |r| == |pairs|
    decreases |pairs|
  {
    if pairs == [] then [] else [MergeLine(pairs[0])] + MergeLines(pairs[1..])
  }

  lemma {:induction false} MergeLinesAt(pairs: seq<Pair>, k: nat)
    requires k < |pairs|
    ensures MergeLines(pairs)[k] == MergeLine(pairs[k])
    decreases k
  {
    var rest := MergeLines(pairs[1..]);
    assert MergeLines(pairs) == [MergeLine(pairs[0])] + rest;
    if k == 0 {
      assert MergeLines(pairs)[0] == MergeLine(pairs[0]);
    } else {
      assert MergeLines(pairs)[k] == rest[k - 1];
      MergeLinesAt(pairs[1..], k - 1);
      assert pairs[1..][k - 1] == pairs[k];
    }
  }

  function Header(pattern: string, specials: map<string, int>): seq<string> {
    [Version, pattern, IntToString(|specials|)]
  }

  /** A model file whose merge section lists `pairs`: version, pattern,
      special-token count, special tokens by name, then the pairs. */
  function ModelLinesWith(pattern: string, specials: map<string, int>, pairs: seq<Pair>): seq<string> {
    Header(pattern, specials) + SpecialLines(specials, SortedStrings(specials.Keys)) + MergeLines(pairs)
  }

  /** What `save_model` writes to the `.model` file: the merge section in
      ascending pair order, the ids themselves left out. */
  function ModelLines(pattern: string, specials: map<string, int>, merges: map<Pair, int>): seq<string> {
    ModelLinesWith(pattern, specials, SortedPairs(merges.Keys))
  }

  /** The text of a model file is its three header lines followed by the
      two sections. */
  lemma {:induction false} ModelText(pattern: string, specials: map<string, int>, names: seq<string>, pairs: seq<Pair>)
    requires names == SortedStrings(specials.Keys)
    ensures JoinLines(ModelLinesWith(pattern, specials, pairs))
         == Version + "\n" + pattern + "\n" + IntToString(|specials|) + "\n"
            + JoinLines(SpecialLines(specials, names)) + JoinLines(MergeLines(pairs))
  {
    var header := Header(pattern, specials);
    HeaderText(pattern, IntToString(|specials|));
    JoinLinesAppend(header, SpecialLines(specials, names));
    JoinLinesAppend(header + SpecialLines(specials, names), MergeLines(pairs));
  }

  lemma {:induction false} HeaderText(pattern: string, count: string)
    ensures JoinLines([Version, pattern, count]) == Version + "\n" + pattern + "\n" + count + "\n"
  {
    assert [Version, pattern, count][1..] == [pattern, count];
    assert [pattern, count][1..] == [count];
    assert [count][1..] == [];
    calc {
      JoinLines([Version, pattern, count]);
      Version + "\n" + JoinLines([pattern, count]);
      Version + "\n" + (pattern + "\n" + JoinLines([count]));
      Version + "\n" + (pattern + "\n" + (count + "\n"));
      Version + "\n" + pattern + "\n" + count + "\n";
    }
  }

  /** The special-token loop of `save_model`: one line per name. */
  method WriteSpecials(specials: map<string, int>, names: seq<string>) returns (text: string)
    requires forall t :: t in names ==> t in specials
    ensures text == JoinLines(SpecialLines(specials, names))
  {
    ghost var lines := SpecialLines(specials, names);
    text := "";
    for k := 0 to |names|
      invariant text == JoinLines(lines[..k])
    {
      var line := names[k] + " " + IntToString(specials[names[k]]);
      SpecialLinesAt(specials, names, k);
      JoinLinesSnoc(lines, k);
      text := text + line + "\n";
    }
    assert lines[..|names|] == lines;
  }

  /** The merge loop of `save_model`: one line per pair. */
  method WriteMerges(pairs: seq<Pair>) returns (text: string)
    ensures text == JoinLines(MergeLines(pairs))
  {
    ghost var lines := MergeLines(pairs);
    text := "";
    for k := 0 to |pairs|
      invariant text == JoinLines(lines[..k])
    {
      var line := IntToString(pairs[k].0) + " " + IntToString(pairs[k].1);
      MergeLinesAt(pairs, k);
      JoinLinesSnoc(lines, k);
      text := text + line + "\n";
    }
    assert lines[..|pairs|] == lines;
  }

  /** What `load_model` reads: pattern, special tokens and merges. */
  datatype Loaded = Loaded(pattern: string, specials: map<string, int>, merges: map<Pair, int>)

  /** How far `load_model` gets: a panic before the pattern is assigned, a
      panic after it, or the whole file read. */
  datatype Parse = HeaderFailed(error: Error) | BodyFailed(pattern: string, error: Error) | Parsed(model: Loaded)

  /** One special-token line: a name and an id, separated by whitespace;
      anything after the id is ignored. */
  function ParseSpecialLine(line: string): Result<(string, int)> {
    var parts := SplitWhitespace(line);
    if |parts| < 2 then Err(MissingField)
    else match ParseI32(parts[1])
      case None => Err(BadInt)
      case Some(id) => Ok((parts[0], id))
  }

  /** Special-token lines read in order, each added to `acc`. */
  function ParseSpecialEntries(acc: map<string, int>, lines: seq<string>): Result<map<string, int>>
    decreases |lines|
  {
    if lines == [] then Ok(acc)
    else match ParseSpecialLine(lines[0])
      case Err(e) => Err(e)
      case Ok(entry) => ParseSpecialEntries(acc[entry.0 := entry.1], lines[1..])
  }

  /** The special-token section: the next `n` lines (none when `n` is
      negative), read in order; a bad line panics first, and a file that
      ends early panics once the lines it has are read. Returns the lines
      after the section. */
  function ParseSpecials(lines: seq<string>, n: int): Result<(map<string, int>, seq<string>)> {
    var k := if n < 0 then 0 else n;
    if k <= |lines| then
      match ParseSpecialEntries(map[], lines[..k])
      case Err(e) => Err(e)
      case Ok(specials) => Ok((specials, lines[k..]))
    else
      match ParseSpecialEntries(map[], lines)
      case Err(e) => Err(e)
      case Ok(_) => Err(MissingLine)
  }

  /** One merge line: two ids separated by whitespace, the first read
      before the second is looked for; anything after is ignored. */
  function ParseMergeLine(line: string): Result<Pair> {
    var parts := SplitWhitespace(line);
    if parts == [] then Err(MissingField)
    else match ParseI32(parts[0])
      case None => Err(BadInt)
      case Some(a) =>
        if |parts| < 2 then Err(MissingField)
        else match ParseI32(parts[1])
          case None => Err(BadInt)
          case Some(b) => Ok((a, b))
  }

  /** The merge section: every remaining line holds a pair, numbered from
      `idx` in file order. */
  function ParseMerges(acc: map<Pair, int>, lines: seq<string>, idx: int): Result<map<Pair, int>>
    decreases |lines|
  {
    if lines == [] then Ok(acc)
    else match ParseMergeLine(lines[0])
      case Err(e) => Err(e)
      case Ok(p) => ParseMerges(acc[p := idx], lines[1..], idx + 1)
  }

  /** What `load_model` makes of a file's lines. The version line is
      compared trimmed, the pattern is trimmed, the count is parsed as it
      stands and a negative count reads no special tokens. */
  function ParseModel(lines: seq<string>): Parse {
    if lines == [] then HeaderFailed(MissingLine)
    else if Trim(lines[0]) != Version then HeaderFailed(BadVersion)
    else if |lines| < 2 then HeaderFailed(MissingLine)
    else
      var pattern := Trim(lines[1]);
      if |lines| < 3 then BodyFailed(pattern, MissingLine)
      else match ParseI32(lines[2])
        case None => BodyFailed(pattern, BadInt)
        case Some(count) =>
          match ParseSpecials(lines[3..], count)
          case Err(e) => BodyFailed(pattern, e)
          case Ok(sections) =>
            match ParseMerges(map[], sections.1, 256)
            case Err(e) => BodyFailed(pattern, e)
            case Ok(merges) => Parsed(Loaded(pattern, sections.0, merges))
  }

  /** The special-token loop of `load_model`. */
  method ReadSpecials(lines: seq<string>, n: int) returns (r: Result<(map<string, int>, seq<string>)>)
    ensures r == ParseSpecials(lines, n)
  {
    var k := if n < 0 then 0 else n;
    var section := if k <= |lines| then lines[..k] else lines;
    var specials: map<string, int> := map[];
    var rest := section;
    while rest != []
      invariant ParseSpecialEntries(specials, rest) == ParseSpecialEntries(map[], section)
      decreases |rest|
    {
      var entry := ParseSpecialLine(rest[0]);
      if entry.Err? {
        return Err(entry.error);
      }
      specials := specials[entry.value.0 := entry.value.1];
      rest := rest[1..];
    }
    if k > |lines| {
      return Err(MissingLine);
    }
    return Ok((specials, lines[k..]));
  }

  /** The merge loop of `load_model`. */
  method ReadMerges(lines: seq<string>) returns (r: Result<map<Pair, int>>)
    ensures r == ParseMerges(map[], lines, 256)
  {
    var merges: map<Pair, int> := map[];
    var idx := 256;
    var rest := lines;
    while rest != []
      invariant ParseMerges(merges, rest, idx) == ParseMerges(map[], lines, 256)
      decreases |rest|
    {
      var pair := ParseMergeLine(rest[0]);
      if pair.Err? {
        return Err(pair.error);
      }
      merges := merges[pair.value := idx];
      idx := idx + 1;
      rest := rest[1..];
    }
    return Ok(merges);
  }

  /** The reading part of `load_model`, up to the first panic. */
  method ReadModel(lines: seq<string>) returns (r: Parse)
    ensures r == ParseModel(lines)
  {
    if lines == [] {
      return HeaderFailed(MissingLine);
    }
    if Trim(lines[0]) != Version {
      return HeaderFailed(BadVersion);
    }
    if |lines| < 2 {
      return HeaderFailed(MissingLine);
    }
    var pattern := Trim(lines[1]);
    if |lines| < 3 {
      return BodyFailed(pattern, MissingLine);
    }
    var count := ParseI32(lines[2]);
    if count.None? {
      return BodyFailed(pattern, BadInt);
    }
    var sections := ReadSpecials(lines[3..], count.value);
    if sections.Err? {
      return BodyFailed(pattern, sections.error);
    }
    var merges := ReadMerges(sections.value.1);
    if merges.Err? {
      return BodyFailed(pattern, merges.error);
    }
    return Parsed(Loaded(pattern, sections.value.0, merges.value));
  }

  // ---------------------------------------------------------------------
  // The tokenizer object

  class Tokenizer {
    /** Learned merges: pair to merge id. */
    var merges: map<Pair, int>
    /** The split pattern; carried and saved, never applied. */
    var pattern: string
    /** Special tokens: name to id. */
    var specialTokens: map<string, int>
    /** Token bytes by id. */
    var vocab: Vocab

    /** Every byte has a token. */
    ghost predicate Valid()
      reads this
    {
      forall b :: 0 <= b < 256 ==> b in vocab
    }

    /** `new`: no merges, no pattern, no special tokens, and the 256 byte
        tokens. */
    constructor()
      ensures Valid()
      ensures merges == map[] && pattern == "" && specialTokens == map[]
      ensures vocab == ByteVocab()
    {
      merges := map[];
      pattern := "";
      specialTokens := map[];
      var noMerges: map<Pair, int> := map[];
      var none: map<string, int> := map[];
      assert SortedPairs(noMerges.Keys) == [];
      assert SortedStrings(none.Keys) == [];
      var built := BuildVocab(noMerges, none);
      vocab := built.value;
    }

    /** `train`: learn `vocabSize - 256` merges from the text's UTF-8
        bytes, on top of the current merges and vocabulary. */
    method Train(text: string, vocabSize: int, verbose: bool) returns (outcome: Outcome)
      requires Valid()
      requires 0 <= vocabSize <= I32Max + 1
      modifies this
      ensures Valid()
      ensures pattern == old(pattern) && specialTokens == old(specialTokens)
      ensures vocabSize < 256 ==>
        outcome == Fail(VocabSizeTooSmall) && merges == old(merges) && vocab == old(vocab)
      ensures vocabSize >= 256 ==>
        var r := Trained(TrainState(AsBytes(text), old(merges), old(vocab), []), 0, vocabSize - 256, verbose);
        outcome == r.1 && merges == r.0.merges && vocab == r.0.vocab
    {
      if vocabSize < 256 {
        return Fail(VocabSizeTooSmall);
      }
      var numMerges := vocabSize - 256;
      var ids: seq<int> := AsBytes(text);
      ghost var st := TrainState(ids, merges, vocab, []);
      ghost var goal := Trained(st, 0, numMerges, verbose);
      assert goal == Trained(TrainState(AsBytes(text), old(merges), old(vocab), []), 0, vocabSize - 256, verbose);
      for i := 0 to numMerges
        invariant st.ids == ids && st.merges == merges && st.vocab == vocab
        invariant Trained(st, i, numMerges, verbose) == goal
        invariant pattern == old(pattern) && specialTokens == old(specialTokens)
        invariant Valid()
      {
        var stop;
        ghost var step := TrainStep(st, i, verbose);
        ids, stop, outcome := TrainRound(ids, i, verbose, st);
        if stop {
          assert outcome == goal.1 && merges == goal.0.merges && vocab == goal.0.vocab by {
            TrainedAt(st, i, numMerges, verbose);
          }
          return;
        }
        assert Trained(step.next, i + 1, numMerges, verbose) == goal by {
          TrainedAt(st, i, numMerges, verbose);
        }
        st := step.next;
      }
      TrainedStops(st, numMerges, numMerges, verbose);
      return Pass;
    }

    /** One round of `train`: `stop` when it panics. */
    method TrainRound(ids: seq<int>, i: nat, verbose: bool, ghost st: TrainState)
      returns (newIds: seq<int>, stop: bool, outcome: Outcome)
      requires Valid()
      requires st.ids == ids && st.merges == merges && st.vocab == vocab
      modifies this
      ensures Valid()
      ensures pattern == old(pattern) && specialTokens == old(specialTokens)
      ensures match TrainStep(st, i, verbose)
        case Continue(next) => !stop && newIds == next.ids && merges == next.merges && vocab == next.vocab
        case Stop(last, o) => stop && outcome == o && merges == last.merges && vocab == last.vocab
    {
      newIds, outcome := ids, Pass;
      var stats := GetStats(ids);
      if stats == map[] {
        assert TrainStep(st, i, verbose) == Stop(st, Fail(NoPairs));
        return ids, true, Fail(NoPairs);
      }
      var pair := MostFrequent(stats);
      var idx := 256 + i;
      newIds := Merge(ids, pair, idx);
      merges := merges[pair := idx];
      ghost var learned := st.learned + [pair];
      if pair.1 !in vocab {
        assert TrainStep(st, i, verbose) == Stop(TrainState(newIds, merges, vocab, learned), Fail(MissingId(pair.1)));
        return newIds, true, Fail(MissingId(pair.1));
      }
      if pair.0 in vocab {
        vocab := vocab[idx := vocab[pair.0] + vocab[pair.1]];
      }
      ghost var next := TrainState(newIds, merges, vocab, learned);
      if verbose && idx !in vocab {
        assert TrainStep(st, i, verbose) == Stop(next, Fail(MissingId(idx)));
        return newIds, true, Fail(MissingId(idx));
      }
      assert TrainStep(st, i, verbose) == Continue(next);
      stop := false;
    }

    /** `encode`: the text's UTF-8 bytes, merged by the learned merges. */
    method Encode(text: string) returns (ids: seq<int>)
      ensures ids == Encoded(merges, AsBytes(text))
    {
      ids := AsBytes(text);
      while |ids| >= 2
        invariant Encoded(merges, ids) == Encoded(merges, AsBytes(text))
        decreases |ids|
      {
        var stats := GetStats(ids);
        StatsTotal(ids);
        var pair := LowestRank(merges, stats);
        if pair !in merges {
          break;
        }
        var newId := merges[pair];
        WindowOccurs(ids, pair);
        MergeLength(ids, pair, newId);
        ids := Merge(ids, pair, newId);
      }
    }

    /** `decode`, up to the lossy UTF-8 conversion: the bytes of each id in
        turn, or a panic at the first unknown id. */
    method Decode(ids: seq<int>) returns (r: Result<seq<byte>>)
      ensures r == Flatten(vocab, ids)
      ensures Valid() && (forall k :: 0 <= k < |ids| ==> 0 <= ids[k] < 256) ==> r.Ok?
    {
      FlattenDefined(vocab, ids);
      var bytes: seq<byte> := [];
      for k := 0 to |ids|
        invariant Flatten(vocab, ids[..k]) == Ok(bytes)
      {
        assert ids[..k + 1][..k] == ids[..k];
        if ids[k] !in vocab {
          FlattenAppend(vocab, ids[..k + 1], ids[k + 1..]);
          assert ids[..k + 1] + ids[k + 1..] == ids;
          return Err(MissingId(ids[k]));
        }
        bytes := bytes + vocab[ids[k]];
      }
      assert ids[..|ids|] == ids;
      r := Ok(bytes);
    }
  
    /** `save_model`, the `.model` file: the text its `writeln!` calls
        produce. */
    method SaveModel() returns (text: string)
      ensures text == JoinLines(ModelLines(pattern, specialTokens, merges))
    {
      var names := SortedStrings(specialTokens.Keys);
      var pairs := SortedPairs(merges.Keys);
      text := Version + "\n" + pattern + "\n" + IntToString(|specialTokens|) + "\n";
      var special := WriteSpecials(specialTokens, names);
      var merged := WriteMerges(pairs);
      ModelText(pattern, specialTokens, names, pairs);
      text := text + special + merged;
    }

    /** `load_model` on the text of the file: each field is assigned as
        soon as it is read, so a panic leaves what came before it. */
    method LoadModel(text: string) returns (outcome: Outcome)
      requires Valid()
      modifies this
      ensures Valid()
      ensures match ParseModel(Lines(text))
        case HeaderFailed(e) =>
          && outcome == Fail(e) && pattern == old(pattern) && specialTokens == old(specialTokens)
          && merges == old(merges) && vocab == old(vocab)
        case BodyFailed(pat, e) =>
          && outcome == Fail(e) && pattern == pat && specialTokens == old(specialTokens)
          && merges == old(merges) && vocab == old(vocab)
        case Parsed(m) =>
          && pattern == m.pattern && specialTokens == m.specials && merges == m.merges
          && match VocabOf(m.merges, m.specials)
             case Ok(v) => outcome == Pass && vocab == v
             case Err(e) => outcome == Fail(e) && vocab == old(vocab)
    {
      var parse := ReadModel(Lines(text));
      outcome := Install(parse);
    }

    /** The assignments of `load_model`, given how far reading got. */
    method Install(parse: Parse) returns (outcome: Outcome)
      requires Valid()
      modifies this
      ensures Valid()
      ensures match parse
        case HeaderFailed(e) =>
          && outcome == Fail(e) && pattern == old(pattern) && specialTokens == old(specialTokens)
          && merges == old(merges) && vocab == old(vocab)
        case BodyFailed(pat, e) =>
          && outcome == Fail(e) && pattern == pat && specialTokens == old(specialTokens)
          && merges == old(merges) && vocab == old(vocab)
        case Parsed(m) =>
          && pattern == m.pattern && specialTokens == m.specials && merges == m.merges
          && match VocabOf(m.merges, m.specials)
             case Ok(v) => outcome == Pass && vocab == v
             case Err(e) => outcome == Fail(e) && vocab == old(vocab)
    {
      match parse
      case HeaderFailed(e) =>
        return Fail(e);
      case BodyFailed(pat, e) =>
        pattern := pat;
        return Fail(e);
      case Parsed(m) =>
        var built := BuildVocab(m.merges, m.specials);
        assert built.Ok? ==> forall b :: 0 <= b < 256 ==> b in built.value by {
          if built.Ok? {
            VocabOfBytes(m.merges, m.specials);
          }
        }
        outcome := Assign(m, built);
    }

    /** The last assignments of `load_model`: the fields read, then the
        vocabulary `build_vocab` made of them, or its error. */
    method Assign(m: Loaded, built: Result<Vocab>) returns (outcome: Outcome)
      requires Valid()
      requires built.Ok? ==> forall b :: 0 <= b < 256 ==> b in built.value
      modifies this
      ensures Valid()
      ensures pattern == m.pattern && specialTokens == m.specials && merges == m.merges
      ensures match built
        case Ok(v) => outcome == Pass && vocab == v
        case Err(e) => outcome == Fail(e) && vocab == old(vocab)
    {
      pattern, merges, specialTokens := m.pattern, m.merges, m.specials;
      match built
      case Ok(v) =>
        vocab := v;
        outcome := Pass;
      case Err(e) =>
        outcome := Fail(e);
    }
  }
}
