/** `helpers.rs`: pair statistics, the merge step, vocabulary construction
    and the byte-literal printer. */
module Helpers {
  import opened Wrappers
  import opened BTree
  import opened RustStr

  /** Token id -> the bytes it stands for (`BTreeMap<i32, Vec<u8>>`). */
  type Vocab = map<int, seq<byte>>

  // ---------------------------------------------------------------------
  // get_stats

  /** The number of windows `(ids[i], ids[i + 1])` equal to `p`. */
  function Count(ids: seq<int>, p: Pair): nat
    decreases |ids|
  {
    if |ids| < 2 then 0
    else Count(ids[..|ids| - 1], p) + (if (ids[|ids| - 2], ids[|ids| - 1]) == p then 1 else 0)
  }

  /** The pairs that occur as adjacent ids. */
  function Windows(ids: seq<int>): set<Pair> {
    set i {:trigger ids[i]} | 0 <= i < |ids| - 1 :: (ids[i], ids[i + 1])
  }

  /** What `get_stats` returns: each adjacent pair with its count. */
  function Stats(ids: seq<int>): map<Pair, nat> {
    map p | p in Windows(ids) :: Count(ids, p)
  }

  lemma {:induction false} WindowsSnoc(s: seq<int>, x: int)
    requires |s| >= 1
    ensures Windows(s + [x]) == Windows(s) + {(s[|s| - 1], x)}
  {
    var t := s + [x];
    forall p | p in Windows(t) ensures p in Windows(s) + {(s[|s| - 1], x)} {
      var i :| 0 <= i < |t| - 1 && p == (t[i], t[i + 1]);
      if i < |s| - 1 { assert p == (s[i], s[i + 1]); }
    }
    forall p | p in Windows(s) ensures p in Windows(t) {
      var i :| 0 <= i < |s| - 1 && p == (s[i], s[i + 1]);
      assert p == (t[i], t[i + 1]);
    }
    assert (s[|s| - 1], x) == (t[|s| - 1], t[|s|]);
  }

  lemma {:induction false} StatsSnoc(s: seq<int>, x: int)
    requires |s| >= 1
    ensures var w := (s[|s| - 1], x);
      Stats(s + [x]) == Stats(s)[w := if w in Stats(s) then Stats(s)[w] + 1 else 1]
  {
    var t := s + [x];
    var w := (s[|s| - 1], x);
    assert t[..|t| - 1] == s;
    WindowsSnoc(s, x);
    forall p | p in Windows(s) && p != w ensures Count(t, p) == Count(s, p) { }
    if w !in Windows(s) {
      CountZero(s, w);
    }
  }

  lemma {:induction false} CountZero(ids: seq<int>, p: Pair)
    requires p !in Windows(ids)
    ensures Count(ids, p) == 0
    decreases |ids|
  {
    if |ids| >= 2 {
      var s := ids[..|ids| - 1];
      assert Windows(ids) == Windows(s) + {(ids[|ids| - 2], ids[|ids| - 1])} by {
        assert ids == s + [ids[|ids| - 1]];
        WindowsSnoc(s, ids[|ids| - 1]);
      }
      CountZero(s, p);
    }
  }

  /** `get_stats`: one pass over the windows, bumping a counter per pair. */
  method GetStats(ids: seq<int>) returns (counts: map<Pair, nat>)
    ensures counts == Stats(ids)
  {
    counts := map[];
    if |ids| < 2 {
      assert Windows(ids) == {};
      return;
    }
    var i := 1;
    assert Windows(ids[..1]) == {};
    while i < |ids|
      invariant 1 <= i <= |ids|
      invariant counts == Stats(ids[..i])
    {
      var pair := (ids[i - 1], ids[i]);
      assert counts[pair := if pair in counts then counts[pair] + 1 else 1] == Stats(ids[..i + 1]) by {
        StatsSnoc(ids[..i], ids[i]);
        assert ids[..i] + [ids[i]] == ids[..i + 1];
      }
      counts := counts[pair := if pair in counts then counts[pair] + 1 else 1];
      i := i + 1;
    }
    assert ids[..i] == ids;
  }

  /** The sum of the counts, in iteration order. */
  function SumCounts(stats: map<Pair, nat>, keys: seq<Pair>): nat
    requires forall k :: k in keys ==> k in stats
  {
    if keys == [] then 0 else stats[keys[0]] + SumCounts(stats, keys[1..])
  }

  /** The number of windows whose pair lies in `s`. */
  function WindowsIn(ids: seq<int>, s: set<Pair>): nat
    decreases |ids|
  {
    if |ids| < 2 then 0
    else WindowsIn(ids[..|ids| - 1], s) + (if (ids[|ids| - 2], ids[|ids| - 1]) in s then 1 else 0)
  }

  lemma {:induction false} WindowsInSplit(ids: seq<int>, s: set<Pair>, k: Pair)
    requires k in s
    ensures WindowsIn(ids, s) == Count(ids, k) + WindowsIn(ids, s - {k})
    decreases |ids|
  {
    if |ids| >= 2 { WindowsInSplit(ids[..|ids| - 1], s, k); }
  }

  lemma {:induction false} SumCountsIsWindowsIn(ids: seq<int>, keys: seq<Pair>)
    requires forall i, j :: 0 <= i < j < |keys| ==> keys[i] != keys[j]
    requires forall k :: k in keys ==> k in Stats(ids)
    ensures SumCounts(Stats(ids), keys) == WindowsIn(ids, set k | k in keys)
    decreases |keys|
  {
    if keys == [] {
      assert (set k | k in keys) == {};
      WindowsInNone(ids);
    } else {
      var s := set k | k in keys;
      var rest := keys[1..];
      assert (set k | k in rest) == s - {keys[0]} by {
        forall k | k in rest ensures k != keys[0] {
          var j :| 0 <= j < |rest| && rest[j] == k;
          assert keys[j + 1] == k;
        }
      }
      SumCountsIsWindowsIn(ids, rest);
      WindowsInSplit(ids, s, keys[0]);
    }
  }

  lemma {:induction false} WindowsInNone(ids: seq<int>)
    ensures WindowsIn(ids, {}) == 0
    decreases |ids|
  {
    if |ids| >= 2 { WindowsInNone(ids[..|ids| - 1]); }
  }

  lemma {:induction false} WindowsInAll(ids: seq<int>, s: set<Pair>)
    requires Windows(ids) <= s
    ensures WindowsIn(ids, s) == if |ids| < 2 then 0 else |ids| - 1
    decreases |ids|
  {
    if |ids| >= 2 {
      var p := ids[..|ids| - 1];
      assert ids == p + [ids[|ids| - 1]];
      if |p| >= 1 { WindowsSnoc(p, ids[|ids| - 1]); }
      assert (ids[|ids| - 2], ids[|ids| - 1]) in Windows(ids);
      WindowsInAll(p, s);
    }
  }

  /** `get_stats` of fewer than two ids is empty; otherwise its counts,
      summed in iteration order, account for every one of the `|ids| - 1`
      windows. */
  lemma {:induction false} StatsTotal(ids: seq<int>)
    ensures |ids| < 2 <==> Stats(ids) == map[]
    ensures |ids| >= 2 ==> SumCounts(Stats(ids), SortedPairs(Stats(ids).Keys)) == |ids| - 1
  {
    if |ids| >= 2 {
      assert (ids[0], ids[1]) in Stats(ids);
      var keys := SortedPairs(Stats(ids).Keys);
      assert forall i, j :: 0 <= i < j < |keys| ==> keys[i] != keys[j] by {
        assert forall i, j :: 0 <= i < j < |keys| ==> PairLt(keys[i], keys[j]);
      }
      SumCountsAll(ids, keys);
    } else {
      assert Windows(ids) == {};
    }
  }

  /** Counts summed over every key once, in any order, make `|ids| - 1`. */
  lemma {:induction false} SumCountsAll(ids: seq<int>, keys: seq<Pair>)
    requires |ids| >= 2
    requires forall i, j :: 0 <= i < j < |keys| ==> keys[i] != keys[j]
    requires forall k :: k in keys <==> k in Stats(ids)
    ensures SumCounts(Stats(ids), keys) == |ids| - 1
  {
    SumCountsIsWindowsIn(ids, keys);
    assert (set k | k in keys) == Windows(ids);
    WindowsInAll(ids, Windows(ids));
  }

  /** The example in the comment above `get_stats`. */
  lemma {:induction false} StatsExample()
    ensures Stats([1, 2, 3, 1, 2]) == map[(1, 2) := 2, (2, 3) := 1, (3, 1) := 1]
  {
    var ids := [1, 2, 3, 1, 2];
    assert Windows(ids) == {(1, 2), (2, 3), (3, 1)} by {
      assert (ids[0], ids[1]) == (1, 2) && (ids[1], ids[2]) == (2, 3) && (ids[2], ids[3]) == (3, 1);
    }
    var q2, q3, q4 := [1, 2], [1, 2, 3], [1, 2, 3, 1];
    assert q2[..1] == [1] && q3[..2] == q2 && q4[..3] == q3 && ids[..4] == q4;
    assert Count(q2, (1, 2)) == 1 && Count(q2, (2, 3)) == 0 && Count(q2, (3, 1)) == 0;
    assert Count(q3, (1, 2)) == 1 && Count(q3, (2, 3)) == 1 && Count(q3, (3, 1)) == 0;
    assert Count(q4, (1, 2)) == 1 && Count(q4, (2, 3)) == 1 && Count(q4, (3, 1)) == 1;
    assert Count(ids, (1, 2)) == 2 && Count(ids, (2, 3)) == 1 && Count(ids, (3, 1)) == 1;
  }

  // ---------------------------------------------------------------------
  // merge

  predicate Occurs(ids: seq<int>, p: Pair) {
    exists i :: 0 <= i < |ids| - 1 && ids[i] == p.0 && ids[i + 1] == p.1
  }

  /** What `merge` returns: a left-to-right scan that replaces each match of
      `pair` by `idx` and resumes after it, so matches never overlap. */
  function Merged(ids: seq<int>, pair: Pair, idx: int): seq<int>
    decreases |ids|
  {
    if ids == [] then []
    else if |ids| >= 2 && ids[0] == pair.0 && ids[1] == pair.1 then [idx] + Merged(ids[2..], pair, idx)
    else [ids[0]] + Merged(ids[1..], pair, idx)
  }

  /** `merge`. */
  method Merge(ids: seq<int>, pair: Pair, idx: int) returns (newids: seq<int>)
    ensures newids == Merged(ids, pair, idx)
  {
    newids := [];
    var i := 0;
    while i < |ids|
      invariant 0 <= i <= |ids|
      invariant newids + Merged(ids[i..], pair, idx) == Merged(ids, pair, idx)
    {
      MergedAt(ids, i, pair, idx);
      if i < |ids| - 1 && ids[i] == pair.0 && ids[i + 1] == pair.1 {
        Associative(newids, [idx], Merged(ids[i + 2..], pair, idx));
        newids := newids + [idx];
        i := i + 2;
      } else {
        Associative(newids, [ids[i]], Merged(ids[i + 1..], pair, idx));
        newids := newids + [ids[i]];
        i := i + 1;
      }
    }
  }

  /** One step of the scan in `merge`, at position `i`. */
  lemma {:induction false} MergedAt(ids: seq<int>, i: nat, pair: Pair, idx: int)
    requires i < |ids|
    ensures Merged(ids[i..], pair, idx)
      == if i < |ids| - 1 && ids[i] == pair.0 && ids[i + 1] == pair.1
         then [idx] + Merged(ids[i + 2..], pair, idx)
         else [ids[i]] + Merged(ids[i + 1..], pair, idx)
  {
    if i < |ids| - 1 && ids[i] == pair.0 && ids[i + 1] == pair.1 {
      assert ids[i..][2..] == ids[i + 2..];
    } else {
      assert ids[i..][1..] == ids[i + 1..];
    }
  }

  lemma {:induction false} Associative<T>(a: seq<T>, b: seq<T>, c: seq<T>)
    ensures a + b + c == a + (b + c)
  {
  }

  /** The number of matches the scan of `Merged` replaces. */
  function Replacements(ids: seq<int>, pair: Pair): nat
    decreases |ids|
  {
    if ids == [] then 0
    else if |ids| >= 2 && ids[0] == pair.0 && ids[1] == pair.1 then 1 + Replacements(ids[2..], pair)
    else Replacements(ids[1..], pair)
  }

  lemma {:induction false} OccursCons(ids: seq<int>, p: Pair)
    requires |ids| >= 1
    ensures Occurs(ids, p) <==> (|ids| >= 2 && ids[0] == p.0 && ids[1] == p.1) || Occurs(ids[1..], p)
  {
    if Occurs(ids[1..], p) {
      var i :| 0 <= i < |ids| - 2 && ids[1..][i] == p.0 && ids[1..][i + 1] == p.1;
      assert ids[i + 1] == p.0 && ids[i + 2] == p.1;
    }
    if Occurs(ids, p) && !(|ids| >= 2 && ids[0] == p.0 && ids[1] == p.1) {
      var i :| 0 <= i < |ids| - 1 && ids[i] == p.0 && ids[i + 1] == p.1;
      assert ids[1..][i - 1] == p.0 && ids[1..][i] == p.1;
    }
  }

  /** `merge` shortens its input by exactly the number of replacements, and
      it replaces something exactly when the pair occurs; so the output is
      strictly shorter if and only if the pair occurs. */
  lemma {:induction false} MergeLength(ids: seq<int>, pair: Pair, idx: int)
    ensures |Merged(ids, pair, idx)| + Replacements(ids, pair) == |ids|
    ensures Replacements(ids, pair) > 0 <==> Occurs(ids, pair)
    ensures |Merged(ids, pair, idx)| < |ids| <==> Occurs(ids, pair)
    decreases |ids|
  {
    if ids != [] {
      OccursCons(ids, pair);
      if |ids| >= 2 && ids[0] == pair.0 && ids[1] == pair.1 {
        MergeLength(ids[2..], pair, idx);
      } else {
        MergeLength(ids[1..], pair, idx);
      }
    }
  }

  /** A pair that does not occur leaves the input unchanged. */
  lemma {:induction false} MergeAbsent(ids: seq<int>, pair: Pair, idx: int)
    requires !Occurs(ids, pair)
    ensures Merged(ids, pair, idx) == ids
    decreases |ids|
  {
    if ids != [] {
      OccursCons(ids, pair);
      MergeAbsent(ids[1..], pair, idx);
    }
  }

  /** Undo a merge: every `idx` becomes `pair.0, pair.1` again. */
  function Expand(ids: seq<int>, pair: Pair, idx: int): (r: seq<int>)
    ensures |r| >= |ids|
  {
    if ids == [] then []
    else (if ids[0] == idx then [pair.0, pair.1] else [ids[0]]) + Expand(ids[1..], pair, idx)
  }

  /** When `idx` is a fresh id, expanding it again recovers the input. */
  lemma {:induction false} MergeExpand(ids: seq<int>, pair: Pair, idx: int)
    requires idx !in ids
    ensures Expand(Merged(ids, pair, idx), pair, idx) == ids
    decreases |ids|
  {
    if ids != [] {
      if |ids| >= 2 && ids[0] == pair.0 && ids[1] == pair.1 {
        assert idx !in ids[2..];
        MergeExpand(ids[2..], pair, idx);
        ExpandCons(idx, Merged(ids[2..], pair, idx), pair, idx);
        assert ids == [pair.0, pair.1] + ids[2..];
      } else {
        assert idx !in ids[1..];
        MergeExpand(ids[1..], pair, idx);
        ExpandCons(ids[0], Merged(ids[1..], pair, idx), pair, idx);
        assert ids == [ids[0]] + ids[1..];
      }
    }
  }

  lemma {:induction false} ExpandCons(x: int, rest: seq<int>, pair: Pair, idx: int)
    ensures Expand([x] + rest, pair, idx)
         == (if x == idx then [pair.0, pair.1] else [x]) + Expand(rest, pair, idx)
  {
    assert ([x] + rest)[1..] == rest;
  }

  /** The scan resumes after a match, so `5, 5, 5` holds one match of
      `(5, 5)`, not two. */
  lemma {:induction false} MergeNoOverlap()
    ensures Merged([5, 5, 5], (5, 5), 99) == [99, 5]
  {
    assert [5, 5, 5][2..] == [5];
  }

  /** A pair is a window exactly when it occurs. */
  lemma {:induction false} WindowOccurs(ids: seq<int>, p: Pair)
    ensures p in Windows(ids) <==> Occurs(ids, p)
  {
    if Occurs(ids, p) {
      var i :| 0 <= i < |ids| - 1 && ids[i] == p.0 && ids[i + 1] == p.1;
      assert (ids[i], ids[i + 1]) in Windows(ids);
    }
  }

  lemma {:induction false} WindowsCons(x: int, s: seq<int>)
    requires s != []
    ensures Windows([x] + s) == {(x, s[0])} + Windows(s)
  {
    var t := [x] + s;
    forall w | w in Windows(t) ensures w in {(x, s[0])} + Windows(s) {
      var i :| 0 <= i < |t| - 1 && w == (t[i], t[i + 1]);
      if i > 0 { assert w == (s[i - 1], s[i]); }
    }
    forall w | w in Windows(s) ensures w in Windows(t) {
      var i :| 0 <= i < |s| - 1 && w == (s[i], s[i + 1]);
      assert w == (t[i + 1], t[i + 2]);
    }
    assert (t[0], t[1]) in Windows(t);
  }

  lemma {:induction false} WindowsSuffix(ids: seq<int>, k: nat)
    requires k <= |ids|
    ensures Windows(ids[k..]) <= Windows(ids)
  {
    var s := ids[k..];
    forall w | w in Windows(s) ensures w in Windows(ids) {
      var i :| 0 <= i < |s| - 1 && w == (s[i], s[i + 1]);
      assert w == (ids[k + i], ids[k + i + 1]);
    }
  }

  /** Every id of a merge's result is `idx` or comes from the input. */
  lemma {:induction false} MergedElems(ids: seq<int>, pair: Pair, idx: int)
    ensures forall x :: x in Merged(ids, pair, idx) ==> x == idx || x in ids
    decreases |ids|
  {
    if ids != [] {
      if |ids| >= 2 && ids[0] == pair.0 && ids[1] == pair.1 {
        MergedElems(ids[2..], pair, idx);
      } else {
        MergedElems(ids[1..], pair, idx);
      }
    }
  }

  lemma {:induction false} MergedHead(ids: seq<int>, pair: Pair, idx: int)
    requires ids != []
    ensures Merged(ids, pair, idx) != []
    ensures Merged(ids, pair, idx)[0] == idx || Merged(ids, pair, idx)[0] == ids[0]
  {
  }

  /** After a merge, every adjacent pair either involves the new id or was
      already adjacent in the input and is not the merged pair: the scan
      leaves no match behind and brings no two old ids together. */
  lemma {:induction false} MergedWindows(ids: seq<int>, pair: Pair, idx: int)
    ensures forall w :: w in Windows(Merged(ids, pair, idx)) ==>
      w.0 == idx || w.1 == idx || (w in Windows(ids) && w != pair)
    decreases |ids|
  {
    if ids != [] {
      var r := Merged(ids, pair, idx);
      if |ids| >= 2 && ids[0] == pair.0 && ids[1] == pair.1 {
        var rest := Merged(ids[2..], pair, idx);
        MergedWindows(ids[2..], pair, idx);
        WindowsSuffix(ids, 2);
        if rest != [] { WindowsCons(idx, rest); }
      } else {
        var rest := Merged(ids[1..], pair, idx);
        MergedWindows(ids[1..], pair, idx);
        WindowsSuffix(ids, 1);
        if ids[1..] != [] {
          MergedHead(ids[1..], pair, idx);
          WindowsCons(ids[0], rest);
          assert (ids[0], ids[1]) in Windows(ids);
        }
      }
    }
  }

  // ---------------------------------------------------------------------
  // build_vocab

  /** Ids 0..255 each stand for their own byte. */
  function ByteVocab(): (v: Vocab)
    ensures forall b :: b in v <==> 0 <= b < 256
    ensures forall b :: b in v ==> v[b] == [b]
  {
    map b: int | 0 <= b < 256 :: [b]
  }

  /** The merge loop of `build_vocab`, over `keys` in order: a merge whose
      first id is missing is skipped; one whose second id is missing panics
      at `vocab[&p1]`. */
  function ApplyMerges(v: Vocab, merges: map<Pair, int>, keys: seq<Pair>): Result<Vocab>
    requires forall k :: k in keys ==> k in merges
    decreases |keys|
  {
    if keys == [] then Ok(v)
    else
      var p := keys[0];
      if p.0 !in v then ApplyMerges(v, merges, keys[1..])
      else if p.1 !in v then Err(MissingId(p.1))
      else ApplyMerges(v[merges[p] := v[p.0] + v[p.1]], merges, keys[1..])
  }

  /** The special-token loop of `build_vocab`: each token's UTF-8 bytes
      overwrite its id, later keys winning. */
  function Overlay(v: Vocab, specials: map<string, int>, keys: seq<string>): Vocab
    requires forall k :: k in keys ==> k in specials
    decreases |keys|
  {
    if keys == [] then v
    else Overlay(v[specials[keys[0]] := AsBytes(keys[0])], specials, keys[1..])
  }

  /** What `build_vocab` returns. */
  function VocabOf(merges: map<Pair, int>, specials: map<string, int>): Result<Vocab> {
    match ApplyMerges(ByteVocab(), merges, SortedPairs(merges.Keys))
    case Err(e) => Err(e)
    case Ok(v) => Ok(Overlay(v, specials, SortedStrings(specials.Keys)))
  }

  /** `build_vocab`: the byte entries, then the merge loop, then the
      special-token loop. */
  method BuildVocab(merges: map<Pair, int>, specials: map<string, int>) returns (r: Result<Vocab>)
    ensures r == VocabOf(merges, specials)
  {
    r := MergeLoop(ByteVocab(), merges);
    if r.Ok? {
      var vocab := OverlayLoop(r.value, specials);
      r := Ok(vocab);
    }
  }

  /** The first loop of `build_vocab`. */
  method MergeLoop(start: Vocab, merges: map<Pair, int>) returns (r: Result<Vocab>)
    ensures r == ApplyMerges(start, merges, SortedPairs(merges.Keys))
  {
    var vocab := start;
    var keys := SortedPairs(merges.Keys);
    for k := 0 to |keys|
      invariant ApplyMerges(vocab, merges, keys[k..]) == ApplyMerges(start, merges, keys)
    {
      var p := keys[k];
      assert keys[k..][0] == p && keys[k..][1..] == keys[k + 1..];
      if p.0 in vocab {
        if p.1 !in vocab {
          return Err(MissingId(p.1));
        }
        vocab := vocab[merges[p] := vocab[p.0] + vocab[p.1]];
      }
    }
    assert keys[|keys|..] == [];
    return Ok(vocab);
  }

  /** The second loop of `build_vocab`. */
  method OverlayLoop(start: Vocab, specials: map<string, int>) returns (vocab: Vocab)
    ensures vocab == Overlay(start, specials, SortedStrings(specials.Keys))
  {
    vocab := start;
    var names := SortedStrings(specials.Keys);
    for k := 0 to |names|
      invariant Overlay(vocab, specials, names[k..]) == Overlay(start, specials, names)
    {
      assert names[k..][1..] == names[k + 1..];
      vocab := vocab[specials[names[k]] := AsBytes(names[k])];
    }
    assert names[|names|..] == [];
  }

  lemma {:induction false} ApplyMergesShape(v: Vocab, merges: map<Pair, int>, keys: seq<Pair>)
    requires forall k :: k in keys ==> k in merges
    ensures ApplyMerges(v, merges, keys).Ok? ==>
      var r := ApplyMerges(v, merges, keys).value;
      && v.Keys <= r.Keys <= v.Keys + merges.Values
      && forall id :: id in v && id !in merges.Values ==> r[id] == v[id]
    decreases |keys|
  {
    if keys != [] {
      var p := keys[0];
      if p.0 !in v {
        ApplyMergesShape(v, merges, keys[1..]);
      } else if p.1 in v {
        ApplyMergesShape(v[merges[p] := v[p.0] + v[p.1]], merges, keys[1..]);
      }
    }
  }

  lemma {:induction false} OverlayShape(v: Vocab, specials: map<string, int>, keys: seq<string>)
    requires forall k :: k in keys ==> k in specials
    ensures var r := Overlay(v, specials, keys);
      && r.Keys == v.Keys + (set k | k in keys :: specials[k])
      && forall id :: id in v && (forall k :: k in keys ==> specials[k] != id) ==> r[id] == v[id]
    decreases |keys|
  {
    if keys != [] {
      var v' := v[specials[keys[0]] := AsBytes(keys[0])];
      OverlayShape(v', specials, keys[1..]);
      assert (set k | k in keys :: specials[k])
        == {specials[keys[0]]} + (set k | k in keys[1..] :: specials[k]);
    }
  }

  /** The last token of `keys` that carries a given id is the one whose
      bytes end up at that id. */
  lemma {:induction false} OverlayLastWins(v: Vocab, specials: map<string, int>, keys: seq<string>, i: nat)
    requires forall k :: k in keys ==> k in specials
    requires i < |keys|
    requires forall j :: i < j < |keys| ==> specials[keys[j]] != specials[keys[i]]
    ensures var r := Overlay(v, specials, keys);
      specials[keys[i]] in r && r[specials[keys[i]]] == AsBytes(keys[i])
    decreases |keys|
  {
    var v' := v[specials[keys[0]] := AsBytes(keys[0])];
    if i == 0 {
      OverlayShape(v', specials, keys[1..]);
    } else {
      OverlayLastWins(v', specials, keys[1..], i - 1);
    }
  }

  /** `build_vocab` keeps every byte id; its ids are bytes, merge ids or
      special ids; a byte that is neither a merge id nor a special id still
      stands for itself; and every special token has an entry. */
  lemma {:induction false} VocabOfShape(merges: map<Pair, int>, specials: map<string, int>)
    ensures VocabOf(merges, specials).Ok? ==>
      var v := VocabOf(merges, specials).value;
      && (forall b :: 0 <= b < 256 ==> b in v)
      && (forall id :: id in v ==> 0 <= id < 256 || id in merges.Values || id in specials.Values)
      && (forall b :: 0 <= b < 256 && b !in merges.Values && b !in specials.Values ==> v[b] == [b])
      && (forall t :: t in specials ==> specials[t] in v)
  {
    var keys := SortedPairs(merges.Keys);
    var names := SortedStrings(specials.Keys);
    var base := ByteVocab();
    var m := ApplyMerges(base, merges, keys);
    if m.Ok? {
      var mv := m.value;
      assert base.Keys <= mv.Keys <= base.Keys + merges.Values
        && forall id :: id in base && id !in merges.Values ==> mv[id] == base[id]
      by { ApplyMergesShape(base, merges, keys); }
      var v := Overlay(mv, specials, names);
      assert v.Keys == mv.Keys + (set k | k in names :: specials[k])
        && forall id :: id in mv && (forall k :: k in names ==> specials[k] != id) ==> v[id] == mv[id]
      by { OverlayShape(mv, specials, names); }
      assert VocabOf(merges, specials) == Ok(v);
      ShapeOfParts(merges, specials, names, mv, v);
    }
  }

  /** The shape of a vocabulary overlaid with special tokens on top of one
      built from the bytes and `merges`. */
  lemma {:induction false} ShapeOfParts(merges: map<Pair, int>, specials: map<string, int>, names: seq<string>, mv: Vocab, v: Vocab)
    requires forall t :: t in names <==> t in specials
    requires ByteVocab().Keys <= mv.Keys <= ByteVocab().Keys + merges.Values
    requires forall id :: id in ByteVocab() && id !in merges.Values ==> mv[id] == ByteVocab()[id]
    requires v.Keys == mv.Keys + (set k | k in names :: specials[k])
    requires forall id :: id in mv && (forall k :: k in names ==> specials[k] != id) ==> v[id] == mv[id]
    ensures forall b :: 0 <= b < 256 ==> b in v
    ensures forall id :: id in v ==> 0 <= id < 256 || id in merges.Values || id in specials.Values
    ensures forall b :: 0 <= b < 256 && b !in merges.Values && b !in specials.Values ==> v[b] == [b]
    ensures forall t :: t in specials ==> specials[t] in v
  {
    assert forall b :: 0 <= b < 256 ==> b in ByteVocab();
    forall id | id in v ensures 0 <= id < 256 || id in merges.Values || id in specials.Values {
      if id !in mv {
        var k :| k in names && specials[k] == id;
      }
    }
    forall b | 0 <= b < 256 && b !in merges.Values && b !in specials.Values ensures v[b] == [b] {
      forall k | k in names ensures specials[k] != b {
        assert specials[k] in specials.Values;
      }
    }
    forall t | t in specials ensures specials[t] in v {
      assert t in names;
    }
  }

  /** Every byte keeps its entry in a vocabulary `build_vocab` returns. */
  lemma {:induction false} VocabOfBytes(merges: map<Pair, int>, specials: map<string, int>)
    requires VocabOf(merges, specials).Ok?
    ensures forall b :: 0 <= b < 256 ==> b in VocabOf(merges, specials).value
  {
    VocabOfShape(merges, specials);
  }

  /** Special tokens are written last: a token's bytes sit at its id unless
      a greater token (in `String` order) carries the same id. */
  lemma {:induction false} VocabOfSpecial(merges: map<Pair, int>, specials: map<string, int>, t: string)
    requires t in specials
    requires forall u :: u in specials && specials[u] == specials[t] ==> u == t || StringLt(u, t)
    ensures VocabOf(merges, specials).Ok? ==>
      var v := VocabOf(merges, specials).value;
      specials[t] in v && v[specials[t]] == AsBytes(t)
  {
    var names := SortedStrings(specials.Keys);
    assert t in names;
    var i :| 0 <= i < |names| && names[i] == t;
    LaterNamesDiffer(specials, names, i);
    var m := ApplyMerges(ByteVocab(), merges, SortedPairs(merges.Keys));
    if m.Ok? {
      OverlayLastWins(m.value, specials, names, i);
    }
  }

  /** In `String` order, no token after the greatest one holding an id
      holds it too. */
  lemma {:induction false} LaterNamesDiffer(specials: map<string, int>, names: seq<string>, i: nat)
    requires forall u :: u in names ==> u in specials
    requires forall a, b :: 0 <= a < b < |names| ==> StringLt(names[a], names[b])
    requires i < |names|
    requires forall u :: u in specials && specials[u] == specials[names[i]] ==> u == names[i] || StringLt(u, names[i])
    ensures forall j :: i < j < |names| ==> specials[names[j]] != specials[names[i]]
  {
    forall j | i < j < |names| ensures specials[names[j]] != specials[names[i]] {
      if specials[names[j]] == specials[names[i]] {
        assert StringLt(names[i], names[j]);
        StringLtIrreflexive(names[i]);
        if StringLt(names[j], names[i]) {
          StringLtTransitive(names[i], names[j], names[i]);
        }
      }
    }
  }

  // ---------------------------------------------------------------------
  // Merge tables and the order of their entries

  /** Insert `pairs` into `m` in order, the k-th with id `first + k`, a later
      duplicate replacing an earlier one: how `train` and `load_model` fill
      their merge tables. */
  function Numbered(m: map<Pair, int>, pairs: seq<Pair>, first: int): map<Pair, int>
    decreases |pairs|
  {
    if pairs == [] then m else Numbered(m[pairs[0] := first], pairs[1..], first + 1)
  }

  lemma {:induction false} NumberedKeys(m: map<Pair, int>, pairs: seq<Pair>, first: int)
    ensures Numbered(m, pairs, first).Keys == m.Keys + set p | p in pairs
    decreases |pairs|
  {
    if pairs != [] {
      NumberedKeys(m[pairs[0] := first], pairs[1..], first + 1);
      assert (set p | p in pairs) == {pairs[0]} + (set p | p in pairs[1..]);
    }
  }

  /** Numbering a listing of a table's pairs keeps its pairs. */
  lemma {:induction false} NumberedListing(merges: map<Pair, int>, pairs: seq<Pair>)
    requires forall x :: x in pairs <==> x in merges
    ensures Numbered(map[], pairs, 256).Keys == merges.Keys
  {
    NumberedKeys(map[], pairs, 256);
    ElementsAre(pairs, merges.Keys);
  }

  /** With distinct pairs, the k-th pair gets id `first + k`, and the old
      entries for other pairs stay. */
  lemma {:induction false} NumberedAt(m: map<Pair, int>, pairs: seq<Pair>, first: int)
    requires forall i, j :: 0 <= i < j < |pairs| ==> pairs[i] != pairs[j]
    ensures var r := Numbered(m, pairs, first);
      && (forall k :: 0 <= k < |pairs| ==> pairs[k] in r && r[pairs[k]] == first + k)
      && (forall p :: p in m && p !in pairs ==> p in r && r[p] == m[p])
    decreases |pairs|
  {
    if pairs != [] {
      var m' := m[pairs[0] := first];
      NumberedAt(m', pairs[1..], first + 1);
      var r := Numbered(m, pairs, first);
      forall k | 0 <= k < |pairs| ensures pairs[k] in r && r[pairs[k]] == first + k {
        if k > 0 {
          assert pairs[k] == pairs[1..][k - 1];
        } else {
          assert pairs[0] !in pairs[1..];
        }
      }
    }
  }

  /** Merge-table entries ordered by id, ties broken by pair: the order in
      which the merges were learned. */
  function ById(merges: map<Pair, int>): (Pair, Pair) -> bool {
    (a: Pair, b: Pair) =>
      a in merges && b in merges && (merges[a] < merges[b] || (merges[a] == merges[b] && PairLt(a, b)))
  }

  function SortedById(merges: map<Pair, int>): (r: seq<Pair>)
    ensures |r| == |merges|
    ensures forall x :: x in r <==> x in merges
    ensures forall i, j :: 0 <= i < j < |r| ==> merges[r[i]] <= merges[r[j]]
    ensures StrictlySorted(r, ById(merges))
  {
    assert StrictTotalOn(merges.Keys, ById(merges));
    var r := SortedKeys(merges.Keys, ById(merges));
    assert forall i, j :: 0 <= i < j < |r| ==> ById(merges)(r[i], r[j]);
    r
  }

  lemma {:induction false} HeadIsLeast<T>(a: seq<T>, lt: (T, T) -> bool, x: T)
    requires StrictlySorted(a, lt) && x in a && x != a[0]
    ensures lt(a[0], x)
  {
  }

  lemma {:induction false} SameHead<T>(a: seq<T>, b: seq<T>, lt: (T, T) -> bool)
    requires a != [] && b != []
    requires StrictlySorted(a, lt) && StrictlySorted(b, lt)
    requires forall x :: x in a <==> x in b
    requires StrictTotalOn((set x | x in a), lt)
    ensures a[0] == b[0]
  {
    if a[0] != b[0] {
      HeadIsLeast(a, lt, b[0]);
      HeadIsLeast(b, lt, a[0]);
      assert false;
    }
  }

  lemma {:induction false} SameTail<T>(a: seq<T>, b: seq<T>, lt: (T, T) -> bool)
    requires a != [] && b != [] && a[0] == b[0]
    requires StrictlySorted(a, lt) && StrictlySorted(b, lt)
    requires forall x :: x in a <==> x in b
    requires !lt(a[0], a[0])
    ensures forall x :: x in a[1..] <==> x in b[1..]
  {
    forall x ensures x in a[1..] ==> x in b[1..] {
      if x in a[1..] {
        var j :| 0 <= j < |a| - 1 && a[1..][j] == x;
        assert a[j + 1] == x && lt(a[0], x);
        assert x in b;
        var k :| 0 <= k < |b| && b[k] == x;
        assert k != 0;
        assert b[1..][k - 1] == x;
      }
    }
    forall x ensures x in b[1..] ==> x in a[1..] {
      if x in b[1..] {
        var j :| 0 <= j < |b| - 1 && b[1..][j] == x;
        assert b[j + 1] == x && lt(b[0], x);
        assert x in a;
        var k :| 0 <= k < |a| && a[k] == x;
        assert k != 0;
        assert a[1..][k - 1] == x;
      }
    }
  }

  lemma {:induction false} EmptyTogether<T>(a: seq<T>, b: seq<T>)
    requires forall x :: x in a <==> x in b
    ensures a == [] <==> b == []
  {
    if a != [] { assert a[0] in b; }
    if b != [] { assert b[0] in a; }
  }

  /** Two strictly sorted sequences with the same elements are equal. */
  lemma {:induction false} SortedUnique<T>(a: seq<T>, b: seq<T>, lt: (T, T) -> bool)
    requires StrictlySorted(a, lt) && StrictlySorted(b, lt)
    requires forall x :: x in a <==> x in b
    requires StrictTotalOn((set x | x in a), lt)
    ensures a == b
    decreases |a|
  {
    EmptyTogether(a, b);
    if a != [] {
      SameHead(a, b, lt);
      SameTail(a, b, lt);
      assert (set x | x in a[1..]) <= (set x | x in a);
      SortedUnique(a[1..], b[1..], lt);
      assert a == [a[0]] + a[1..] == [b[0]] + b[1..] == b;
    }
  }

  /** The pairs a run of `train` learns from scratch, in order: distinct,
      and the k-th made of ids that exist by then (a byte or an earlier
      merge's id `256 + j`, j < k). */
  predicate Learnable(pairs: seq<Pair>) {
    && (forall i, j :: 0 <= i < j < |pairs| ==> pairs[i] != pairs[j])
    && (forall k :: 0 <= k < |pairs| ==> 0 <= pairs[k].0 < 256 + k && 0 <= pairs[k].1 < 256 + k)
  }

  /** Every merge's id stands for the bytes of its two parts. */
  ghost predicate Consistent(merges: map<Pair, int>, vocab: Vocab) {
    forall p :: p in merges ==>
      && merges[p] in vocab && p.0 in vocab && p.1 in vocab
      && vocab[merges[p]] == vocab[p.0] + vocab[p.1]
  }

  /** `build_vocab` as evidently intended: merges applied in the order they
      were learned (ascending id) rather than in ascending pair order. */
  function VocabById(merges: map<Pair, int>, specials: map<string, int>): Result<Vocab> {
    match ApplyMerges(ByteVocab(), merges, SortedById(merges))
    case Err(e) => Err(e)
    case Ok(v) => Ok(Overlay(v, specials, SortedStrings(specials.Keys)))
  }

  lemma {:induction false} ByIdIsTotal(merges: map<Pair, int>)
    ensures StrictTotalOn(merges.Keys, ById(merges))
  {
  }

  /** Distinct pairs numbered from 256 are strictly ordered by id. */
  lemma {:induction false} NumberedSortedById(pairs: seq<Pair>)
    requires forall i, j :: 0 <= i < j < |pairs| ==> pairs[i] != pairs[j]
    ensures StrictlySorted(pairs, ById(Numbered(map[], pairs, 256)))
  {
    var merges := Numbered(map[], pairs, 256);
    NumberedAt(map[], pairs, 256);
    forall i, j | 0 <= i < j < |pairs| ensures ById(merges)(pairs[i], pairs[j]) {
      assert merges[pairs[i]] == 256 + i && merges[pairs[j]] == 256 + j;
    }
  }

  /** Learned pairs come out of `SortedById` in the order they were learned. */
  lemma {:induction false} SortedByIdOfLearned(pairs: seq<Pair>)
    requires forall i, j :: 0 <= i < j < |pairs| ==> pairs[i] != pairs[j]
    ensures SortedById(Numbered(map[], pairs, 256)) == pairs
  {
    var merges := Numbered(map[], pairs, 256);
    assert forall x :: x in pairs <==> x in merges by { NumberedKeys(map[], pairs, 256); }
    NumberedSortedById(pairs);
    SortedByIdIs(merges, pairs);
  }

  /** `SortedById` is the one strictly sorted listing of a table's pairs. */
  lemma {:induction false} SortedByIdIs(merges: map<Pair, int>, pairs: seq<Pair>)
    requires forall x :: x in pairs <==> x in merges
    requires StrictlySorted(pairs, ById(merges))
    ensures SortedById(merges) == pairs
  {
    var r := SortedById(merges);
    ByIdIsTotal(merges);
    assert (set x | x in r) == merges.Keys;
    SortedUnique(r, pairs, ById(merges));
  }

  /** The vocabulary after applying the first `k` learned pairs: exactly
      the bytes and the ids `256 + j`, j < k, each byte standing for itself
      and each merge id for its parts' bytes. */
  ghost predicate AppliedUpTo(v: Vocab, pairs: seq<Pair>, k: nat)
    requires k <= |pairs|
  {
    && (forall id :: id in v <==> 0 <= id < 256 + k)
    && (forall b :: 0 <= b < 256 ==> v[b] == [b])
    && (forall j :: 0 <= j < k ==>
          pairs[j].0 in v && pairs[j].1 in v && v[256 + j] == v[pairs[j].0] + v[pairs[j].1])
  }

  /** Applying learned pair `k` keeps `AppliedUpTo` one step further. */
  lemma {:induction false} AppliedStep(v: Vocab, pairs: seq<Pair>, k: nat)
    requires Learnable(pairs) && k < |pairs| && AppliedUpTo(v, pairs, k)
    ensures pairs[k].0 in v && pairs[k].1 in v
    ensures AppliedUpTo(v[256 + k := v[pairs[k].0] + v[pairs[k].1]], pairs, k + 1)
  {
    var p := pairs[k];
    assert 0 <= p.0 < 256 + k && 0 <= p.1 < 256 + k;
    var v' := v[256 + k := v[p.0] + v[p.1]];
    forall j | 0 <= j < k + 1
      ensures pairs[j].0 in v' && pairs[j].1 in v' && v'[256 + j] == v'[pairs[j].0] + v'[pairs[j].1]
    {
      assert 0 <= pairs[j].0 < 256 + j && 0 <= pairs[j].1 < 256 + j;
    }
  }

  /** Applying learned pairs in learned order: every step finds both parts. */
  lemma {:induction false} ApplyLearned(v: Vocab, merges: map<Pair, int>, pairs: seq<Pair>, k: nat)
    requires Learnable(pairs) && merges == Numbered(map[], pairs, 256) && k <= |pairs|
    requires merges.Keys == set p | p in pairs
    requires AppliedUpTo(v, pairs, k)
    ensures ApplyMerges(v, merges, pairs[k..]).Ok?
    ensures AppliedUpTo(ApplyMerges(v, merges, pairs[k..]).value, pairs, |pairs|)
    decreases |pairs| - k
  {
    if k < |pairs| {
      var p := pairs[k];
      assert pairs[k..][0] == p && pairs[k..][1..] == pairs[k + 1..];
      assert merges[p] == 256 + k by { NumberedAt(map[], pairs, 256); }
      AppliedStep(v, pairs, k);
      var v' := v[256 + k := v[p.0] + v[p.1]];
      assert ApplyMerges(v, merges, pairs[k..]) == ApplyMerges(v', merges, pairs[k + 1..]);
      ApplyLearned(v', merges, pairs, k + 1);
    } else {
      assert pairs[k..] == [];
    }
  }

  /** The vocabulary the learned merges give when applied in learned order. */
  lemma {:induction false} LearnedVocab(pairs: seq<Pair>) returns (v: Vocab)
    requires Learnable(pairs)
    ensures var merges := Numbered(map[], pairs, 256);
      VocabById(merges, map[]) == Ok(v)
    ensures forall id :: id in v <==> 0 <= id < 256 + |pairs|
    ensures forall b :: 0 <= b < 256 ==> v[b] == [b]
    ensures forall j :: 0 <= j < |pairs| ==> v[256 + j] == v[pairs[j].0] + v[pairs[j].1]
  {
    var merges := Numbered(map[], pairs, 256);
    var base := ByteVocab();
    assert merges.Keys == set p | p in pairs by { NumberedKeys(map[], pairs, 256); }
    assert AppliedUpTo(base, pairs, 0);
    assert pairs[0..] == pairs;
    ApplyLearned(base, merges, pairs, 0);
    v := ApplyMerges(base, merges, pairs).value;
    assert VocabById(merges, map[]) == Ok(v) by {
      SortedByIdOfLearned(pairs);
      var none: map<string, int> := map[];
      assert SortedStrings(none.Keys) == [];
    }
  }

  /** Two vocabularies built from the same learned pairs agree on each id:
      a byte on itself, a merge id on its parts, which are older. */
  lemma {:induction false} AppliedSame(v1: Vocab, v2: Vocab, pairs: seq<Pair>, id: int)
    requires Learnable(pairs)
    requires AppliedUpTo(v1, pairs, |pairs|) && AppliedUpTo(v2, pairs, |pairs|)
    requires 0 <= id < 256 + |pairs|
    ensures v1[id] == v2[id]
    decreases id
  {
    if id >= 256 {
      var p := pairs[id - 256];
      AppliedSame(v1, v2, pairs, p.0);
      AppliedSame(v1, v2, pairs, p.1);
    }
  }

  /** The learned pairs determine the whole vocabulary built from them. */
  lemma {:induction false} AppliedUnique(v1: Vocab, v2: Vocab, pairs: seq<Pair>)
    requires Learnable(pairs)
    requires AppliedUpTo(v1, pairs, |pairs|) && AppliedUpTo(v2, pairs, |pairs|)
    ensures v1 == v2
  {
    forall id | id in v1 ensures id in v2 && v1[id] == v2[id] {
      AppliedSame(v1, v2, pairs, id);
    }
    assert forall id :: id in v2 ==> 0 <= id < 256 + |pairs| && id in v1;
  }

  /** The corrected `build_vocab` gives every table `train` learns from
      scratch a vocabulary in which each merge id stands for its parts. */
  lemma {:induction false} VocabByIdConsistent(pairs: seq<Pair>)
    requires Learnable(pairs)
    ensures var merges := Numbered(map[], pairs, 256);
      VocabById(merges, map[]).Ok? && Consistent(merges, VocabById(merges, map[]).value)
  {
    var merges := Numbered(map[], pairs, 256);
    var v := LearnedVocab(pairs);
    NumberedAt(map[], pairs, 256);
    NumberedKeys(map[], pairs, 256);
    forall p | p in merges
      ensures merges[p] in v && p.0 in v && p.1 in v && v[merges[p]] == v[p.0] + v[p.1]
    {
      var j :| 0 <= j < |pairs| && pairs[j] == p;
    }
  }

  /** `build_vocab` as written rejects a table `train` learns: `(97, 256)`
      comes before `(98, 99)` in pair order, so `vocab[&256]` is read before
      it is defined. The corrected order succeeds. */
  lemma {:induction false} BuildVocabPairOrderPanics()
    ensures Learnable([(98, 99), (97, 256)])
    ensures var merges := Numbered(map[], [(98, 99), (97, 256)], 256);
      && merges == map[(98, 99) := 256, (97, 256) := 257]
      && VocabOf(merges, map[]) == Err(MissingId(256))
      && VocabById(merges, map[]).Ok?
  {
    var pairs := [(98, 99), (97, 256)];
    var merges := map[(98, 99) := 256, (97, 256) := 257];
    assert Learnable(pairs);
    assert Numbered(map[], pairs, 256) == merges;
    assert VocabOf(merges, map[]) == Err(MissingId(256)) by {
      assert SortedPairs(merges.Keys) == [(97, 256), (98, 99)] by { TwoPairsSorted(merges); }
      FirstMergePanics(merges, [(97, 256), (98, 99)]);
    }
    assert VocabById(merges, map[]).Ok? by { VocabByIdConsistent(pairs); }
  }

  lemma {:induction false} TwoPairsSorted(merges: map<Pair, int>)
    requires merges.Keys == {(98, 99), (97, 256)}
    ensures SortedPairs(merges.Keys) == [(97, 256), (98, 99)]
  {
    var keys := SortedPairs(merges.Keys);
    assert keys[0] in merges.Keys && keys[1] in merges.Keys && PairLt(keys[0], keys[1]);
  }

  /** A first merge whose first part is a byte and whose second is not yet
      defined panics. */
  lemma {:induction false} FirstMergePanics(merges: map<Pair, int>, keys: seq<Pair>)
    requires keys != [] && forall k :: k in keys ==> k in merges
    requires 0 <= keys[0].0 < 256 && !(0 <= keys[0].1 < 256)
    ensures ApplyMerges(ByteVocab(), merges, keys) == Err(MissingId(keys[0].1))
  {
  }

  // ---------------------------------------------------------------------
  // b_as_literal

  predicate IsAsciiGraphic(b: byte) {
    0x21 <= b <= 0x7E
  }

  /** `u8::is_ascii_whitespace`: space, tab, line feed, form feed, carriage
      return (not vertical tab). */
  predicate IsAsciiWhitespace(b: byte) {
    b == 0x20 || b == 0x09 || b == 0x0A || b == 0x0C || b == 0x0D
  }

  predicate Shown(b: byte) {
    IsAsciiGraphic(b) || IsAsciiWhitespace(b)
  }

  function HexDigit(d: nat): char
    requires d < 16
  {
    "0123456789abcdef"[d]
  }

  /** The value of a lower-case hex digit. */
  function HexValue(c: char): int {
    if '0' <= c <= '9' then c as int - '0' as int
    else if 'a' <= c <= 'f' then c as int - 'a' as int + 10
    else -1
  }

  /** One byte as `b_as_literal` writes it. */
  function RenderByte(b: byte): string {
    if Shown(b) then [b as char] else ['\\', 'x', HexDigit(b / 16), HexDigit(b % 16)]
  }

  function RenderBytes(bytes: seq<byte>): string {
    if bytes == [] then [] else RenderByte(bytes[0]) + RenderBytes(bytes[1..])
  }

  /** What `b_as_literal` returns. */
  function Literal(bytes: seq<byte>): string {
    "b\"" + RenderBytes(bytes) + "\""
  }

  /** `b_as_literal`. */
  method BAsLiteral(bytes: seq<byte>) returns (formatted: string)
    ensures formatted == Literal(bytes)
  {
    formatted := "b\"";
    for k := 0 to |bytes|
      invariant formatted + RenderBytes(bytes[k..]) == "b\"" + RenderBytes(bytes)
    {
      var piece;
      if IsAsciiGraphic(bytes[k]) || IsAsciiWhitespace(bytes[k]) {
        piece := [bytes[k] as char];
      } else {
        piece := ['\\', 'x', HexDigit(bytes[k] / 16), HexDigit(bytes[k] % 16)];
      }
      assert formatted + piece + RenderBytes(bytes[k + 1..]) == "b\"" + RenderBytes(bytes) by {
        RenderBytesAt(bytes, k);
        Associative(formatted, piece, RenderBytes(bytes[k + 1..]));
      }
      formatted := formatted + piece;
    }
    formatted := formatted + "\"";
  }

  lemma {:induction false} RenderBytesAt(bytes: seq<byte>, k: nat)
    requires k < |bytes|
    ensures RenderBytes(bytes[k..]) == RenderByte(bytes[k]) + RenderBytes(bytes[k + 1..])
  {
    assert bytes[k..][1..] == bytes[k + 1..];
  }

  /** A printable byte appears as itself; any other byte as `\x` and two
      lower-case hex digits that spell its value. */
  lemma {:induction false} RenderByteMeaning(b: byte)
    ensures Shown(b) ==> RenderByte(b) == [b as char]
    ensures !Shown(b) ==>
      && |RenderByte(b)| == 4 && RenderByte(b)[..2] == "\\x"
      && HexValue(RenderByte(b)[2]) * 16 + HexValue(RenderByte(b)[3]) == b
  {
    if !Shown(b) {
      HexRoundTrip(b / 16);
      HexRoundTrip(b % 16);
    }
  }

  lemma {:induction false} HexRoundTrip(d: nat)
    requires d < 16
    ensures HexValue(HexDigit(d)) == d
  {
  }

  /** `b"` + one to four characters per byte + `"`. */
  lemma {:induction false} LiteralLength(bytes: seq<byte>)
    ensures |bytes| + 3 <= |Literal(bytes)| <= 4 * |bytes| + 3
  {
    RenderBytesLength(bytes);
  }

  lemma {:induction false} RenderBytesLength(bytes: seq<byte>)
    ensures |bytes| <= |RenderBytes(bytes)| <= 4 * |bytes|
  {
    if bytes != [] { RenderBytesLength(bytes[1..]); }
  }

  /** The literal is not injective: the byte 0 and the four bytes
      `\`, `x`, `0`, `0` print alike. */
  lemma {:induction false} LiteralAmbiguous()
    ensures Literal([0]) == Literal([0x5C, 0x78, 0x30, 0x30])
  {
  }
}
