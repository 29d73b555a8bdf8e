/** The Python `BPETokenizer` of minbpe: the same algorithm as the Rust
    tokenizer, over dictionaries that iterate in insertion order. */
module Minbpe {
  import opened Wrappers
  import opened BTree
  import opened RustStr
  import opened Helpers
  import opened Bpe

  // ---------------------------------------------------------------------
  // Pair selection in dictionary order

  /** The keys of the pair-count dictionary in insertion order: every
      adjacent pair, where it first occurs. */
  function FirstSeen(ids: seq<int>): (r: seq<Pair>)
    ensures forall q :: q in r <==> q in Windows(ids)
    ensures forall i, j :: 0 <= i < j < |r| ==> r[i] != r[j]
    decreases |ids|
  {
    if |ids| < 2 then []
    else
      var front := ids[..|ids| - 1];
      var w := (ids[|ids| - 2], ids[|ids| - 1]);
      assert front + [ids[|ids| - 1]] == ids;
      WindowsSnoc(front, ids[|ids| - 1]);
      var before := FirstSeen(front);
      if w in before then before else before + [w]
  }

  /** `keys` lists pairs in order of first occurrence: a pair listed before
      another already occurs in the ids up to each place the other occurs. */
  ghost predicate SeenInOrder(ids: seq<int>, keys: seq<Pair>) {
    forall i, j, m :: 0 <= i < j < |keys| && 0 <= m < |ids| - 1 && (ids[m], ids[m + 1]) == keys[j] ==>
      keys[i] in Windows(ids[..m + 1])
  }

  /** The dictionary's keys come in order of first occurrence. */
  lemma {:induction false} FirstSeenInOrder(ids: seq<int>)
    ensures SeenInOrder(ids, FirstSeen(ids))
    decreases |ids|
  {
    if |ids| >= 2 {
      var front := ids[..|ids| - 1];
      assert front + [ids[|ids| - 1]] == ids;
      FirstSeenInOrder(front);
      FirstSeenSnoc(front, ids[|ids| - 1]);
      SeenInOrderSnoc(ids, FirstSeen(front), FirstSeen(ids));
    }
  }

  /** Adding the last pair, when it is new, keeps the first-occurrence
      order. */
  lemma {:induction false} SeenInOrderSnoc(ids: seq<int>, before: seq<Pair>, r: seq<Pair>)
    requires |ids| >= 2
    requires forall q :: q in before <==> q in Windows(ids[..|ids| - 1])
    requires SeenInOrder(ids[..|ids| - 1], before)
    requires var w := (ids[|ids| - 2], ids[|ids| - 1]);
      r == if w in before then before else before + [w]
    ensures SeenInOrder(ids, r)
  {
    var front := ids[..|ids| - 1];
    var w := (ids[|ids| - 2], ids[|ids| - 1]);
    forall i, j, m | 0 <= i < j < |r| && 0 <= m < |ids| - 1 && (ids[m], ids[m + 1]) == r[j]
      ensures r[i] in Windows(ids[..m + 1])
    {
      assert r[i] == before[i];
      if m < |ids| - 2 {
        assert (front[m], front[m + 1]) == r[j] && (front[m], front[m + 1]) in Windows(front);
        assert ids[..m + 1] == front[..m + 1];
        assert r[j] == before[j];
      } else {
        assert ids[..m + 1] == front;
        assert r[i] in before;
      }
    }
  }

  /** Python's `max` with a key: the position of the highest count, the
      first one when several share it. */
  function FirstMaxAt(stats: map<Pair, nat>, keys: seq<Pair>): (k: nat)
    requires keys != [] && forall q :: q in keys ==> q in stats
    ensures k < |keys|
    ensures forall j :: 0 <= j < |keys| ==> stats[keys[j]] <= stats[keys[k]]
    ensures forall j :: 0 <= j < k ==> stats[keys[j]] < stats[keys[k]]
    decreases |keys|
  {
    if |keys| == 1 then 0
    else
      var front := keys[..|keys| - 1];
      var k := FirstMaxAt(stats, front);
      if stats[keys[|keys| - 1]] > stats[keys[k]] then |keys| - 1 else k
  }

  /** The pair `train` merges next. */
  function Chosen(ids: seq<int>): (p: Pair)
    requires |ids| >= 2
    ensures p in Windows(ids)
    ensures forall q :: q in Windows(ids) ==> Count(ids, q) <= Count(ids, p)
  {
    var keys := FirstSeen(ids);
    assert (ids[0], ids[1]) in Windows(ids);
    var stats := Stats(ids);
    var k := FirstMaxAt(stats, keys);
    assert forall q :: q in Windows(ids) ==> exists j :: 0 <= j < |keys| && keys[j] == q;
    keys[k]
  }

  /** Of the pairs sharing the highest count, `train` merges the one seen
      first: every other such pair occurs only after it has occurred. */
  lemma {:induction false} ChosenFirst(ids: seq<int>)
    requires |ids| >= 2
    ensures forall m ::
      (0 <= m < |ids| - 1 && (ids[m], ids[m + 1]) != Chosen(ids) &&
       Count(ids, (ids[m], ids[m + 1])) == Count(ids, Chosen(ids))) ==>
        Chosen(ids) in Windows(ids[..m + 1])
  {
    var keys := FirstSeen(ids);
    assert (ids[0], ids[1]) in Windows(ids);
    var stats := Stats(ids);
    var k := FirstMaxAt(stats, keys);
    assert Chosen(ids) == keys[k];
    FirstSeenInOrder(ids);
    FirstOfTies(ids, keys, k);
  }

  /** The key at `k`, when every key before it has a lower count, occurs
      before every other key with the same count. */
  lemma {:induction false} FirstOfTies(ids: seq<int>, keys: seq<Pair>, k: nat)
    requires forall q :: q in keys <==> q in Windows(ids)
    requires SeenInOrder(ids, keys) && k < |keys|
    requires forall j :: 0 <= j < k ==> Count(ids, keys[j]) < Count(ids, keys[k])
    ensures forall m ::
      (0 <= m < |ids| - 1 && (ids[m], ids[m + 1]) != keys[k] &&
       Count(ids, (ids[m], ids[m + 1])) == Count(ids, keys[k])) ==>
        keys[k] in Windows(ids[..m + 1])
  {
    forall m | 0 <= m < |ids| - 1 && (ids[m], ids[m + 1]) != keys[k] &&
      Count(ids, (ids[m], ids[m + 1])) == Count(ids, keys[k])
      ensures keys[k] in Windows(ids[..m + 1])
    {
      var q := (ids[m], ids[m + 1]);
      assert q in Windows(ids);
      var j :| 0 <= j < |keys| && keys[j] == q;
      assert k < j;
    }
  }

  /** The key `encode` minimises: the pair's merge id, or infinity (`None`)
      when it has none. */
  function PyRank(merges: map<Pair, int>, p: Pair): Option<int> {
    if p in merges then Some(merges[p]) else None
  }

  /** Strict order on ranks: every id is below infinity. */
  predicate RankLt(a: Option<int>, b: Option<int>) {
    a.Some? && (b.None? || a.value < b.value)
  }

  /** Python's `min` with a key: the position of the lowest rank, the
      first one when several share it. */
  function FirstMinAt(merges: map<Pair, int>, keys: seq<Pair>): (k: nat)
    requires keys != []
    ensures k < |keys|
    ensures forall j :: 0 <= j < |keys| ==> !RankLt(PyRank(merges, keys[j]), PyRank(merges, keys[k]))
    ensures forall j :: 0 <= j < k ==> RankLt(PyRank(merges, keys[k]), PyRank(merges, keys[j]))
    decreases |keys|
  {
    if |keys| == 1 then 0
    else
      var front := keys[..|keys| - 1];
      var k := FirstMinAt(merges, front);
      if RankLt(PyRank(merges, keys[|keys| - 1]), PyRank(merges, keys[k])) then |keys| - 1 else k
  }

  /** The pair `encode` considers next: one of the pairs with a merge and
      the lowest merge id, when any pair has a merge. */
  function Cheapest(merges: map<Pair, int>, ids: seq<int>): (p: Pair)
    requires |ids| >= 2
    ensures p in Windows(ids)
    ensures p !in merges ==> forall q :: q in Windows(ids) ==> q !in merges
    ensures p in merges ==> forall q :: q in Windows(ids) && q in merges ==> merges[p] <= merges[q]
  {
    var keys := FirstSeen(ids);
    assert (ids[0], ids[1]) in Windows(ids);
    var k := FirstMinAt(merges, keys);
    assert forall q :: q in Windows(ids) ==> exists j :: 0 <= j < |keys| && keys[j] == q;
    keys[k]
  }

  // ---------------------------------------------------------------------
  // train

  /** Round `i` of `train`: merge the most frequent pair (the first in
      dictionary order among equals) into `256 + i`. An empty count
      dictionary makes `max` raise, and a missing part makes the vocabulary
      lookup raise. */
  function PyStep(st: TrainState, i: nat): Result<TrainState> {
    if Stats(st.ids) == map[] then Err(NoPairs)
    else
      StatsTotal(st.ids);
      var p := Chosen(st.ids);
      var idx := 256 + i;
      if p.0 !in st.vocab then Err(MissingId(p.0))
      else if p.1 !in st.vocab then Err(MissingId(p.1))
      else
        Ok(TrainState(Merged(st.ids, p, idx), st.merges[p := idx],
                      st.vocab[idx := st.vocab[p.0] + st.vocab[p.1]], st.learned + [p]))
  }

  /** Rounds `i` up to `n` of `train`; a raise in any round discards
      everything. */
  function PyTrained(st: TrainState, i: nat, n: nat): Result<TrainState>
    requires i <= n
    decreases n - i
  {
    if i == n then Ok(st)
    else
      match PyStep(st, i)
      case Err(e) => Err(e)
      case Ok(next) => PyTrained(next, i + 1, n)
  }

  /** What every round of a run from scratch keeps: each working id has a
      token, the pairs learned so far are new, made of older ids and gone
      from the working ids, every merge id stands for its two parts, and
      every byte stands for itself. */
  ghost predicate Fit(st: TrainState, i: nat) {
    && Learning(st, i)
    && Consistent(st.merges, st.vocab)
    && (forall id :: id in st.vocab ==> id < 256 + i)
    && (forall b :: 0 <= b < 256 ==> b in st.vocab && st.vocab[b] == [b])
  }

  /** One round from a fitting state merges the pair `max` picks, raises
      nothing and leaves a fitting state that decodes the same. */
  lemma {:induction false} PyRound(st: TrainState, i: nat, n: nat)
    requires i < n && Fit(st, i) && |st.ids| >= 2
    ensures var next := MergeRound(st, i, Chosen(st.ids));
      && PyStep(st, i) == Ok(next)
      && PyTrained(st, i, n) == PyTrained(next, i + 1, n)
      && Fit(next, i + 1)
      && Flatten(next.vocab, next.ids) == Flatten(st.vocab, st.ids)
      && next.merges == st.merges[Chosen(st.ids) := 256 + i]
      && next.learned == st.learned + [Chosen(st.ids)]
  {
    StatsTotal(st.ids);
    var p := Chosen(st.ids);
    PairParts(st, i, p);
    RoundProgress(st, i, p);
    RoundKeeps(st, i, p);
    RoundConsistent(st, i, p);
    LearnRound(st, i, p);
  }

  /** A run from a fitting state raises only when the text runs out of
      pairs; a completed run fits, decodes the same, and numbers the pairs
      it learned from `256 + i`. */
  lemma {:induction false} PyTrainedFacts(st: TrainState, i: nat, n: nat)
    requires i <= n && Fit(st, i)
    ensures var r := PyTrained(st, i, n);
      && (r.Ok? || r == Err(NoPairs))
      && (r.Ok? ==>
        && Fit(r.value, n)
        && Flatten(r.value.vocab, r.value.ids) == Flatten(st.vocab, st.ids)
        && r.value.learned[..i] == st.learned
        && r.value.merges == Numbered(st.merges, r.value.learned[i..], 256 + i))
    decreases n - i
  {
    if i == n {
      assert st.learned[..i] == st.learned && st.learned[i..] == [];
    } else if |st.ids| >= 2 {
      StatsTotal(st.ids);
      PyRound(st, i, n);
      var p := Chosen(st.ids);
      var next := MergeRound(st, i, p);
      PyTrainedFacts(next, i + 1, n);
      var r := PyTrained(next, i + 1, n);
      if r.Ok? {
        LearnedStep(st.learned, p, r.value.learned);
      }
    } else {
      StatsTotal(st.ids);
      assert PyTrained(st, i, n) == Err(NoPairs);
    }
  }

  /** The state a new tokenizer trains from fits. */
  lemma {:induction false} FreshFits(text: string)
    ensures Fit(Fresh(text), 0)
  {
    var st := Fresh(text);
    var none: seq<Pair> := [];
    assert Learnable(none);
  }

  /** Training from scratch with `n` merges: it raises only when the text
      runs out of pairs; otherwise it learns `n` distinct pairs numbered
      from 256 in order, each merge id standing for its two parts and each
      byte for itself. */
  lemma {:induction false} PyFreshTrain(text: string, n: nat)
    ensures var r := PyTrained(Fresh(text), 0, n);
      && (r.Ok? || r == Err(NoPairs))
      && (r.Ok? ==>
        && |r.value.learned| == n && Learnable(r.value.learned)
        && r.value.merges == Numbered(map[], r.value.learned, 256)
        && Consistent(r.value.merges, r.value.vocab)
        && (forall b :: 0 <= b < 256 ==> b in r.value.vocab && r.value.vocab[b] == [b]))
  {
    FreshFits(text);
    PyTrainedFacts(Fresh(text), 0, n);
    var r := PyTrained(Fresh(text), 0, n);
    if r.Ok? {
      assert r.value.learned[0..] == r.value.learned;
    }
  }

  // ---------------------------------------------------------------------
  // encode

  /** The ids `encode` returns for the given byte ids: merge the present
      pair of lowest merge id until no present pair has one or fewer than
      two ids remain. */
  function PyEncoded(merges: map<Pair, int>, ids: seq<int>): seq<int>
    decreases |ids|
  {
    if |ids| < 2 then ids
    else
      var p := Cheapest(merges, ids);
      if p !in merges then ids
      else
        WindowOccurs(ids, p);
        MergeLength(ids, p, merges[p]);
        PyEncoded(merges, Merged(ids, p, merges[p]))
  }

  /** `encode` stops only when no adjacent pair of its result has a merge:
      a missing rank is infinite, so no merge id ties with it. */
  lemma {:induction false} PyEncodedIrreducible(merges: map<Pair, int>, ids: seq<int>)
    ensures forall w :: w in Windows(PyEncoded(merges, ids)) ==> w !in merges
    decreases |ids|
  {
    if |ids| >= 2 {
      var p := Cheapest(merges, ids);
      if p in merges {
        WindowOccurs(ids, p);
        MergeLength(ids, p, merges[p]);
        PyEncodedIrreducible(merges, Merged(ids, p, merges[p]));
      }
    } else {
      assert Windows(ids) == {};
    }
  }

  /** Encoding never changes what the ids decode to, as long as every merge
      id stands for its two parts. */
  lemma {:induction false} PyEncodedFlatten(merges: map<Pair, int>, vocab: Vocab, ids: seq<int>)
    requires Consistent(merges, vocab)
    ensures Flatten(vocab, PyEncoded(merges, ids)) == Flatten(vocab, ids)
    decreases |ids|
  {
    if |ids| >= 2 {
      var p := Cheapest(merges, ids);
      if p in merges {
        WindowOccurs(ids, p);
        MergeLength(ids, p, merges[p]);
        MergePreservesFlatten(vocab, ids, p, merges[p]);
        PyEncodedFlatten(merges, vocab, Merged(ids, p, merges[p]));
      }
    }
  }

  /** With distinct merge ids below `i32::MAX`, the Rust and the Python
      `encode` merge the same pairs in the same order and return the same
      ids, although they scan the pairs in different orders. */
  lemma {:induction false} SameEncoding(merges: map<Pair, int>, ids: seq<int>)
    requires forall p, q :: p in merges && q in merges && merges[p] == merges[q] ==> p == q
    requires forall p :: p in merges ==> merges[p] < I32Max
    ensures Encoded(merges, ids) == PyEncoded(merges, ids)
    decreases |ids|
  {
    if |ids| >= 2 {
      StatsTotal(ids);
      var p := LowestRank(merges, Stats(ids));
      var q := Cheapest(merges, ids);
      assert q in Stats(ids);
      if q in merges {
        assert Rank(merges, p) <= Rank(merges, q) < I32Max;
        assert p in merges;
        assert p in Windows(ids);
        assert merges[q] <= merges[p];
        assert p == q;
        WindowOccurs(ids, p);
        MergeLength(ids, p, merges[p]);
        SameEncoding(merges, Merged(ids, p, merges[p]));
      } else {
        assert p in Windows(ids);
      }
    }
  }

  // ---------------------------------------------------------------------
  // Encoding the training text

  /** `encode` leaves ids none of whose pairs has a merge as they are. */
  lemma {:induction false} PyEncodedFixed(merges: map<Pair, int>, ids: seq<int>)
    requires forall q :: q in Windows(ids) ==> q !in merges
    ensures PyEncoded(merges, ids) == ids
  {
  }

  /** When one present pair has a lower merge id than every other present
      pair, `encode` merges it first. */
  lemma {:induction false} PyEncodedStep(merges: map<Pair, int>, ids: seq<int>, p: Pair)
    requires p in Windows(ids) && p in merges
    requires forall q :: q in Windows(ids) && q in merges && q != p ==> merges[p] < merges[q]
    ensures PyEncoded(merges, ids) == PyEncoded(merges, Merged(ids, p, merges[p]))
  {
    WindowParts(ids, p);
    assert Cheapest(merges, ids) in merges;
  }

  /** The first step of `encode` on ids holding the i-th of the pairs
      `learned` and none before it, under the merges numbered from
      `learned`: it merges that pair into `256 + i`. */
  lemma {:induction false} PyReplayStep(ids: seq<int>, i: nat, learned: seq<Pair>)
    requires Learnable(learned) && i < |learned|
    requires learned[i] in Windows(ids)
    requires forall j :: 0 <= j < i ==> learned[j] !in Windows(ids)
    ensures var m := Numbered(map[], learned, 256);
      PyEncoded(m, ids) == PyEncoded(m, Merged(ids, learned[i], 256 + i))
  {
    var m := Numbered(map[], learned, 256);
    var p := learned[i];
    assert p in m && m[p] == 256 + i
      && forall q :: q in Windows(ids) && q in m && q != p ==> m[p] < m[q]
    by {
      LearnedRanks(learned, i, ids);
    }
    PyEncodedStep(m, ids, p);
  }

  /** What a successful run from round `i` keeps of the pair round `i`
      learns. */
  lemma {:induction false} PyRunLearned(st: TrainState, i: nat, n: nat)
    requires i < n && Fit(st, i) && |st.ids| >= 2
    ensures var r := PyTrained(st, i, n);
      r.Ok? ==>
        && i < |r.value.learned| && r.value.learned[..i + 1] == st.learned + [Chosen(st.ids)]
        && Learnable(r.value.learned)
  {
    PyRound(st, i, n);
    PyTrainedFacts(MergeRound(st, i, Chosen(st.ids)), i + 1, n);
  }

  /** One round of the replay: `encode` from round `i` goes through the
      ids of round `i + 1`. */
  lemma {:induction false} PyEncodedRunStep(st: TrainState, i: nat, n: nat)
    requires i < n && Fit(st, i) && |st.ids| >= 2
    ensures var r := PyTrained(st, i, n);
      r.Ok? ==>
        var m := Numbered(map[], r.value.learned, 256);
        PyEncoded(m, st.ids) == PyEncoded(m, MergeRound(st, i, Chosen(st.ids)).ids)
  {
    PyRunLearned(st, i, n);
    var r := PyTrained(st, i, n);
    if r.Ok? {
      LearnedBefore(st, i, Chosen(st.ids), r.value.learned);
      PyReplayStep(st.ids, i, r.value.learned);
    }
  }

  /** From any round of a successful run from scratch, `encode` with the
      final merges turns that round's ids into the ids the run ends with. */
  lemma {:induction false} PyEncodedRun(st: TrainState, i: nat, n: nat)
    requires i <= n && Fit(st, i)
    ensures var r := PyTrained(st, i, n);
      r.Ok? ==> PyEncoded(Numbered(map[], r.value.learned, 256), st.ids) == r.value.ids
    decreases n - i
  {
    if i == n {
      NumberedKeys(map[], st.learned, 256);
      PyEncodedFixed(Numbered(map[], st.learned, 256), st.ids);
    } else if |st.ids| >= 2 {
      PyRound(st, i, n);
      PyEncodedRun(MergeRound(st, i, Chosen(st.ids)), i + 1, n);
      PyEncodedRunStep(st, i, n);
    } else {
      StatsTotal(st.ids);
      assert PyTrained(st, i, n) == Err(NoPairs);
    }
  }

  /** Encoding the text a successful `train` learned from gives exactly
      the ids training ended with. */
  lemma {:induction false} PyEncodeTrainingText(text: string, n: nat)
    ensures var r := PyTrained(Fresh(text), 0, n);
      r.Ok? ==> PyEncoded(r.value.merges, AsBytes(text)) == r.value.ids
  {
    FreshFits(text);
    PyEncodedRun(Fresh(text), 0, n);
    PyFreshTrain(text, n);
  }

  // ---------------------------------------------------------------------
  // The two tie-breaks

  lemma {:induction false} AbcdCounts()
    ensures AsBytes("abcd") == [97, 98, 99, 100]
    ensures Windows([97, 98, 99, 100]) == {(97, 98), (98, 99), (99, 100)}
    ensures forall q :: q in Windows([97, 98, 99, 100]) ==> Count([97, 98, 99, 100], q) == 1
  {
    var ids := [97, 98, 99, 100];
    assert (ids[0], ids[1]) == (97, 98) && (ids[1], ids[2]) == (98, 99) && (ids[2], ids[3]) == (99, 100);
    var a, b, c := [97], [97, 98], [97, 98, 99];
    assert b[..1] == a && c[..2] == b && ids[..3] == c;
    assert Count(a, (97, 98)) == 0 && Count(a, (98, 99)) == 0 && Count(a, (99, 100)) == 0;
    assert Count(b, (97, 98)) == 1 && Count(b, (98, 99)) == 0 && Count(b, (99, 100)) == 0;
    assert Count(c, (97, 98)) == 1 && Count(c, (98, 99)) == 1 && Count(c, (99, 100)) == 0;
  }

  lemma {:induction false} AbcdRustChoice()
    ensures (97, 98) in Stats([97, 98, 99, 100])
    ensures MostFrequent(Stats([97, 98, 99, 100])) == (99, 100)
  {
    var ids := [97, 98, 99, 100];
    AbcdCounts();
    var stats := Stats(ids);
    assert (99, 100) in stats;
    assert forall q :: q in stats ==> stats[q] == 1 && (q == (99, 100) || PairLt(q, (99, 100)));
    GreatestOfTies(stats, (99, 100));
  }

  /** When every count ties, `max_by_key` keeps the greatest pair. */
  lemma {:induction false} GreatestOfTies(stats: map<Pair, nat>, p: Pair)
    requires p in stats
    requires forall q :: q in stats ==> stats[q] == stats[p] && (q == p || PairLt(q, p))
    ensures MostFrequent(stats) == p
  {
    var m := MostFrequent(stats);
    assert m == p || PairLt(m, p);
    assert p == m || PairLt(p, m);
  }

  /** The last pair is added unless it was seen before. */
  lemma {:induction false} FirstSeenSnoc(front: seq<int>, x: int)
    requires |front| >= 1
    ensures var w := (front[|front| - 1], x);
      FirstSeen(front + [x]) == if w in FirstSeen(front) then FirstSeen(front) else FirstSeen(front) + [w]
  {
    var ids := front + [x];
    assert ids[..|ids| - 1] == front;
  }

  lemma {:induction false} AbcdFirstSeen()
    ensures FirstSeen([97, 98, 99, 100]) == [(97, 98), (98, 99), (99, 100)]
  {
    assert FirstSeen([97]) == [];
    FirstSeenSnoc([97], 98);
    assert [97] + [98] == [97, 98];
    FirstSeenSnoc([97, 98], 99);
    assert [97, 98] + [99] == [97, 98, 99];
    FirstSeenSnoc([97, 98, 99], 100);
    assert [97, 98, 99] + [100] == [97, 98, 99, 100];
  }

  lemma {:induction false} AbcdPythonChoice()
    ensures Chosen([97, 98, 99, 100]) == (97, 98)
  {
    var ids := [97, 98, 99, 100];
    AbcdCounts();
    AbcdFirstSeen();
    var keys := FirstSeen(ids);
    var stats := Stats(ids);
    assert forall j :: 0 <= j < |keys| ==> keys[j] in Windows(ids) && stats[keys[j]] == 1;
    var k := FirstMaxAt(stats, keys);
    assert stats[keys[0]] == stats[keys[k]];
  }

  /** On "abcd", where every pair occurs once, the Rust `train` learns the
      greatest pair (c, d) and the Python `train` the first, (a, b). */
  lemma {:induction false} TieBreaksDiffer()
    ensures Trained(Fresh("abcd"), 0, 1, false).0.learned == [(99, 100)]
    ensures PyTrained(Fresh("abcd"), 0, 1).Ok?
    ensures PyTrained(Fresh("abcd"), 0, 1).value.learned == [(97, 98)]
  {
    AbcdCounts();
    AbcdRustChoice();
    AbcdPythonChoice();
    var st := Fresh("abcd");
    StatsTotal(st.ids);
    ChosenParts(st, 0);
    assert 97 in st.vocab && 98 in st.vocab;
  }

  /** The state a round of the loop leaves, from its new ids, merges,
      vocabulary and pair: the pair is appended to the learned ones. */
  ghost function Advance(r: Result<(seq<int>, map<Pair, int>, Vocab, Pair)>, learned: seq<Pair>): Result<TrainState> {
    match r
    case Err(e) => Err(e)
    case Ok(v) => Ok(TrainState(v.0, v.1, v.2, learned + [v.3]))
  }

  /** The body of `train`'s loop, on its local ids and dictionaries. */
  method PyTrainRound(ids: seq<int>, merges: map<Pair, int>, vocab: Vocab, i: nat, ghost learned: seq<Pair>)
    returns (r: Result<(seq<int>, map<Pair, int>, Vocab, Pair)>)
    ensures Advance(r, learned) == PyStep(TrainState(ids, merges, vocab, learned), i)
  {
    var stats := GetStats(ids);
    if stats == map[] {
      return Err(NoPairs);
    }
    StatsTotal(ids);
    // `max(stats, key=stats.get)`
    var pair := Chosen(ids);
    var idx := 256 + i;
    var newIds := Merge(ids, pair, idx);
    var newMerges := merges[pair := idx];
    if pair.0 !in vocab {
      return Err(MissingId(pair.0));
    }
    if pair.1 !in vocab {
      return Err(MissingId(pair.1));
    }
    return Ok((newIds, newMerges, vocab[idx := vocab[pair.0] + vocab[pair.1]], pair));
  }

  // ---------------------------------------------------------------------
  // The tokenizer object

  /** `BPETokenizer` with the fields its methods use. */
  class Tokenizer {
    var merges: map<Pair, int>
    var vocab: Vocab

    /** A new tokenizer: no merges, and the 256 byte tokens. */
    constructor()
      ensures merges == map[] && vocab == ByteVocab()
    {
      merges := map[];
      vocab := ByteVocab();
    }

    /** `train`: grows fresh dictionaries round by round and stores them
        only once every round is done, so a raise leaves the tokenizer as
        it was. */
    method Train(text: string, vocabSize: int) returns (outcome: Outcome)
      modifies this
      ensures vocabSize < 256 ==>
        outcome == Fail(VocabSizeTooSmall) && merges == old(merges) && vocab == old(vocab)
      ensures vocabSize >= 256 ==>
        match PyTrained(Fresh(text), 0, vocabSize - 256)
        case Ok(r) => outcome == Pass && merges == r.merges && vocab == r.vocab
        case Err(e) => outcome == Fail(e) && merges == old(merges) && vocab == old(vocab)
    {
      if vocabSize < 256 {
        return Fail(VocabSizeTooSmall);
      }
      var n := vocabSize - 256;
      var ids: seq<int> := AsBytes(text);
      var newMerges: map<Pair, int> := map[];
      var newVocab := ByteVocab();
      ghost var learned: seq<Pair> := [];
      ghost var goal := PyTrained(Fresh(text), 0, n);
      assert TrainState(ids, newMerges, newVocab, learned) == Fresh(text);
      for i := 0 to n
        invariant PyTrained(TrainState(ids, newMerges, newVocab, learned), i, n) == goal
        invariant merges == old(merges) && vocab == old(vocab)
      {
        ghost var cur := TrainState(ids, newMerges, newVocab, learned);
        var step := PyTrainRound(ids, newMerges, newVocab, i, learned);
        if step.Err? {
          assert PyStep(cur, i) == Err(step.error);
          return Fail(step.error);
        }
        ghost var next := TrainState(step.value.0, step.value.1, step.value.2, learned + [step.value.3]);
        assert PyStep(cur, i) == Ok(next);
        ids, newMerges, newVocab := step.value.0, step.value.1, step.value.2;
        learned := learned + [step.value.3];
      }
      merges := newMerges;
      vocab := newVocab;
      return Pass;
    }

    /** `encode`, on the text's UTF-8 bytes. */
    method Encode(text: string) returns (ids: seq<int>)
      ensures ids == PyEncoded(merges, AsBytes(text))
    {
      ids := AsBytes(text);
      while |ids| >= 2
        invariant PyEncoded(merges, ids) == PyEncoded(merges, AsBytes(text))
        decreases |ids|
      {
        // `min(get_stats(ids), key=lambda p: self.merges.get(p, inf))`
        var pair := Cheapest(merges, ids);
        if pair !in merges {
          break;
        }
        var idx := merges[pair];
        WindowOccurs(ids, pair);
        MergeLength(ids, pair, idx);
        ids := Merge(ids, pair, idx);
      }
    }

    /** `decode` before the UTF-8 conversion: the bytes of each id in turn,
        or a `KeyError` at the first id the vocabulary lacks. */
    function Decode(ids: seq<int>): (r: Result<seq<byte>>)
      reads this
      ensures r.Ok? <==> forall k :: 0 <= k < |ids| ==> ids[k] in vocab
    {
      FlattenDefined(vocab, ids);
      Flatten(vocab, ids)
    }
  }

  /** After a successful `train`, decoding what `encode` returns for any
      text gives back that text's UTF-8 bytes. */
  lemma {:induction false} PyTrainRoundTrip(text: string, n: nat, t: string)
    requires PyTrained(Fresh(text), 0, n).Ok?
    ensures var r := PyTrained(Fresh(text), 0, n).value;
      Flatten(r.vocab, PyEncoded(r.merges, AsBytes(t))) == Ok(AsBytes(t))
  {
    PyFreshTrain(text, n);
    var r := PyTrained(Fresh(text), 0, n).value;
    PyEncodedFlatten(r.merges, r.vocab, AsBytes(t));
    FlattenBytes(r.vocab, AsBytes(t));
  }

  /** Learned pairs get distinct ids, all below `256 + |learned|`. */
  lemma {:induction false} LearnedIds(learned: seq<Pair>)
    requires Learnable(learned)
    ensures var merges := Numbered(map[], learned, 256);
      && (forall p, q :: p in merges && q in merges && merges[p] == merges[q] ==> p == q)
      && (forall p :: p in merges ==> merges[p] < 256 + |learned|)
  {
    var merges := Numbered(map[], learned, 256);
    NumberedAt(map[], learned, 256);
    NumberedKeys(map[], learned, 256);
    forall p | p in merges
      ensures exists i :: 0 <= i < |learned| && learned[i] == p && merges[p] == 256 + i
    {
      var i :| 0 <= i < |learned| && learned[i] == p;
    }
  }

  /** After a successful `train`, the Rust and the Python `encode` agree on
      the table it learned. */
  lemma {:induction false} PyTrainSameEncoding(text: string, n: nat, t: string)
    requires 256 + n <= I32Max
    requires PyTrained(Fresh(text), 0, n).Ok?
    ensures var r := PyTrained(Fresh(text), 0, n).value;
      Encoded(r.merges, AsBytes(t)) == PyEncoded(r.merges, AsBytes(t))
  {
    PyFreshTrain(text, n);
    var r := PyTrained(Fresh(text), 0, n).value;
    LearnedIds(r.learned);
    SameEncoding(r.merges, AsBytes(t));
  }
}
