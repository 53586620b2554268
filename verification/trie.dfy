/** TeraSort's partitioner: a trie over the first bytes of a key, and the linear search it stands for. */
module Trie {
  import opened Wrappers

  type Text = seq<Byte>

  datatype TrieNode =
    | Inner(level: nat, child: seq<TrieNode>)
    | Leaf(level: nat, splitPoints: seq<Text>, lower: nat, upper: nat)

  /** The order of Text.compareTo: bytes as unsigned numbers, a prefix before its extensions. */
  predicate Less(a: Text, b: Text) {
    b != [] && (a == [] || a[0] < b[0] || (a[0] == b[0] && Less(a[1..], b[1..])))
  }

  predicate Sorted(splits: seq<Text>) {
    forall i, j :: 0 <= i < j < |splits| ==> !Less(splits[j], splits[i])
  }

  /** r splits lie below the key, and they are the first r. */
  predicate IsPartition(splits: seq<Text>, key: Text, r: int) {
    && 0 <= r <= |splits|
    && (forall i :: 0 <= i < r ==> Less(splits[i], key))
    && (forall i :: r <= i < |splits| ==> !Less(splits[i], key))
  }

  // ---- Looking a key up ----

  /** Indexing the child array with a Java byte: the values from 128 up are negative there. */
  function ChildIndex(key: Text, level: nat): (c: int)
    ensures -128 <= c < 128
  {
    var b: int := if |key| <= level then 0 else key[level];
    if b < 128 then b else b - 256
  }

  /** The first split from i on that is not below the key. */
  function Scan(splits: seq<Text>, i: nat, upper: nat, key: Text): (r: nat)
    requires i <= upper <= |splits|
    ensures i <= r <= upper
    ensures forall j :: i <= j < r ==> Less(splits[j], key)
    ensures r < upper ==> !Less(splits[r], key)
    decreases upper - i
  {
    if i == upper || !Less(splits[i], key) then i else Scan(splits, i + 1, upper, key)
  }

  /** Inner nodes have their 256 children and leaves name a range of the splits. */
  predicate WellFormed(node: TrieNode) {
    match node
    case Inner(_, child) => |child| == 256 && forall c :: 0 <= c < 256 ==> WellFormed(child[c])
    case Leaf(_, splits, lower, upper) => lower <= upper <= |splits|
  }

  function Find(node: TrieNode, key: Text): Option<nat>
    requires WellFormed(node)
  {
    match node
    case Inner(level, child) =>
      var c := ChildIndex(key, level);
      if c < 0 then None else Find(child[c], key)
    case Leaf(_, splits, lower, upper) => Some(Scan(splits, lower, upper, key))
  }

  /** findPartition of either kind of node; None is the index exception. */
  method FindPartition(node: TrieNode, key: Text) returns (r: Option<nat>)
    requires WellFormed(node)
    ensures r == Find(node, key)
  {
    match node
    case Inner(level, child) =>
      var c := ChildIndex(key, level);
      if c < 0 {
        return None;
      }
      r := FindPartition(child[c], key);
    case Leaf(_, splits, lower, upper) =>
      var i := lower;
      while i < upper
        invariant lower <= i <= upper
        invariant Scan(splits, lower, upper, key) == Scan(splits, i, upper, key)
      {
        if !Less(splits[i], key) {
          return Some(i);
        }
        i := i + 1;
      }
      return Some(upper);
  }

  // ---- Byte strings cut or padded with zeros to n bytes ----

  function PadAt(s: Text, i: nat): Byte {
    if i < |s| then s[i] else 0
  }

  function Pad(s: Text, n: nat): (p: Text)
    ensures |p| == n
  {
    seq(n, i requires i >= 0 => PadAt(s, i))
  }

  lemma PadSnoc(s: Text, n: nat)
    ensures Pad(s, n + 1) == Pad(s, n) + [PadAt(s, n)]
  {
  }

  lemma PadTail(s: Text, n: nat)
    requires n > 0
    ensures Pad(s, n)[0] == PadAt(s, 0)
    ensures Pad(s, n)[1..] == Pad(if s == [] then [] else s[1..], n - 1)
  {
  }

  lemma {:induction false} LessIrreflexive(a: Text)
    ensures !Less(a, a)
  {
    if a != [] {
      LessIrreflexive(a[1..]);
    }
  }

  lemma {:induction false} LessTransitive(a: Text, b: Text, c: Text)
    requires !Less(b, a) && Less(b, c)
    ensures Less(a, c)
  {
    if a != [] && b != [] && a[0] == b[0] && b[0] == c[0] {
      LessTransitive(a[1..], b[1..], c[1..]);
    }
  }

  /** Different padded prefixes already decide the order. */
  lemma {:induction false} PaddedOrder(s: Text, t: Text, n: nat)
    requires Less(Pad(s, n), Pad(t, n))
    ensures Less(s, t) && !Less(t, s)
  {
    PadTail(s, n);
    PadTail(t, n);
    if PadAt(s, 0) == PadAt(t, 0) {
      var s', t' := if s == [] then [] else s[1..], if t == [] then [] else t[1..];
      PaddedOrder(s', t', n - 1);
    }
  }

  lemma {:induction false} LessSnoc(a: Text, x: Byte, b: Text, y: Byte)
    requires |a| == |b|
    ensures Less(a + [x], b + [y]) <==> Less(a, b) || (a == b && x < y)
  {
    if a != [] {
      assert (a + [x])[1..] == a[1..] + [x] && (b + [y])[1..] == b[1..] + [y];
      assert a == [a[0]] + a[1..] && b == [b[0]] + b[1..];
      LessSnoc(a[1..], x, b[1..], y);
    }
  }

  /** Comparing with a prefix extended by c >= 1 reads the next byte only. */
  lemma {:induction false} TrialCompares(s: Text, prefix: Text, c: Byte)
    requires Pad(s, |prefix|) == prefix && c >= 1
    ensures Less(s, prefix + [c]) <==> PadAt(s, |prefix|) < c
  {
    if prefix == [] {
      assert prefix + [c] == [c];
      assert s != [] ==> !Less(s[1..], []);
    } else {
      PadTail(s, |prefix|);
      assert (prefix + [c])[1..] == prefix[1..] + [c];
      TrialCompares(if s == [] then [] else s[1..], prefix[1..], c);
    }
  }

  // ---- What a subtree is for ----

  /** The splits from lower to upper are those that start with the prefix; the others lie on their own side of it. */
  ghost predicate Covers(splits: seq<Text>, prefix: Text, lower: nat, upper: nat) {
    && lower <= upper <= |splits|
    && (forall i :: 0 <= i < lower ==> Less(Pad(splits[i], |prefix|), prefix))
    && (forall i :: lower <= i < upper ==> Pad(splits[i], |prefix|) == prefix)
    && (forall i :: upper <= i < |splits| ==> Less(prefix, Pad(splits[i], |prefix|)))
  }

  /** Byte k is the key's first one from 128 up, and some split shares the bytes before it. */
  ghost predicate HighByteAt(splits: seq<Text>, key: Text, k: nat) {
    && k < |key| && key[k] >= 128
    && (forall j :: 0 <= j < k ==> key[j] < 128)
    && (exists i :: 0 <= i < |splits| && Pad(splits[i], k) == Pad(key, k))
  }

  ghost predicate Rejected(splits: seq<Text>, maxDepth: int, key: Text) {
    exists k :: 0 <= k < maxDepth && HighByteAt(splits, key, k)
  }

  ghost predicate Answers(r: Option<nat>, splits: seq<Text>, maxDepth: int, key: Text) {
    match r
    case None => Rejected(splits, maxDepth, key)
    case Some(p) => !Rejected(splits, maxDepth, key) && IsPartition(splits, key, p)
  }

  predicate Low7(prefix: Text) {
    forall i :: 0 <= i < |prefix| ==> prefix[i] < 128
  }

  /** The node finds the partition of every key that starts with the prefix. */
  ghost predicate Serves(node: TrieNode, splits: seq<Text>, prefix: Text, maxDepth: int)
    requires WellFormed(node)
  {
    forall key :: Pad(key, |prefix|) == prefix ==> Answers(Find(node, key), splits, maxDepth, key)
  }

  lemma LeafServes(splits: seq<Text>, lower: nat, upper: nat, prefix: Text, maxDepth: int)
    requires Sorted(splits) && Covers(splits, prefix, lower, upper) && Low7(prefix)
    requires |prefix| >= maxDepth || lower == upper
    ensures Serves(Leaf(|prefix|, splits, lower, upper), splits, prefix, maxDepth)
  {
    hide Less, Pad;
    forall key | Pad(key, |prefix|) == prefix
      ensures Answers(Find(Leaf(|prefix|, splits, lower, upper), key), splits, maxDepth, key)
    {
      var r := Scan(splits, lower, upper, key);
      LeafAnswer(splits, lower, upper, prefix, key, r);
      NoHighByte(splits, lower, upper, prefix, key, maxDepth);
    }
  }

  lemma LeafAnswer(splits: seq<Text>, lower: nat, upper: nat, prefix: Text, key: Text, r: nat)
    requires Sorted(splits) && Covers(splits, prefix, lower, upper) && Pad(key, |prefix|) == prefix
    requires r == Scan(splits, lower, upper, key)
    ensures IsPartition(splits, key, r)
  {
    hide Less, Pad;
    forall i | 0 <= i < r
      ensures Less(splits[i], key)
    {
      if i < lower {
        PaddedOrder(splits[i], key, |prefix|);
      }
    }
    forall i | r <= i < |splits|
      ensures !Less(splits[i], key)
    {
      if i >= upper {
        PaddedOrder(key, splits[i], |prefix|);
      } else if i > r && Less(splits[i], key) {
        LessTransitive(splits[r], splits[i], key);
      }
    }
  }

  /** Byte k of a key is below 128 if the key starts with a prefix of such bytes that reaches past k. */
  lemma NoHighByte(splits: seq<Text>, lower: nat, upper: nat, prefix: Text, key: Text, maxDepth: int)
    requires Covers(splits, prefix, lower, upper) && Low7(prefix) && Pad(key, |prefix|) == prefix
    requires |prefix| >= maxDepth || lower == upper
    ensures !Rejected(splits, maxDepth, key)
  {
    hide Less;
    LessIrreflexive(prefix);
    forall k | 0 <= k < maxDepth
      ensures !HighByteAt(splits, key, k)
    {
      if k < |prefix| {
        assert prefix[k] == PadAt(key, k);
      } else {
        forall i | 0 <= i < |splits|
          ensures Pad(splits[i], k) != Pad(key, k)
        {
          PadShorter(splits[i], key, k, |prefix|);
        }
      }
    }
  }

  lemma PadShorter(s: Text, t: Text, k: nat, n: nat)
    requires n <= k
    ensures Pad(s, n) != Pad(t, n) ==> Pad(s, k) != Pad(t, k)
  {
    if Pad(s, k) == Pad(t, k) {
      forall i | 0 <= i < n
        ensures PadAt(s, i) == PadAt(t, i)
      {
        assert Pad(s, k)[i] == Pad(t, k)[i];
      }
    }
  }

  // ---- Building the trie ----

  /** The splits of a node's range whose next byte is ch are the range of its child ch. */
  lemma ChildCovers(splits: seq<Text>, prefix: Text, lower: nat, upper: nat, ch: Byte, from: nat, to: nat)
    requires Covers(splits, prefix, lower, upper)
    requires lower <= from <= to <= upper
    requires forall i :: lower <= i < from ==> PadAt(splits[i], |prefix|) < ch
    requires forall i :: from <= i < to ==> PadAt(splits[i], |prefix|) == ch
    requires forall i :: to <= i < upper ==> PadAt(splits[i], |prefix|) > ch
    ensures Covers(splits, prefix + [ch], from, to)
  {
    hide Less, Pad;
    var n := |prefix|;
    forall i | 0 <= i < |splits|
      ensures Pad(splits[i], n + 1) == Pad(splits[i], n) + [PadAt(splits[i], n)]
      ensures Less(Pad(splits[i], n + 1), prefix + [ch])
        <==> Less(Pad(splits[i], n), prefix) || (Pad(splits[i], n) == prefix && PadAt(splits[i], n) < ch)
      ensures Less(prefix + [ch], Pad(splits[i], n + 1))
        <==> Less(prefix, Pad(splits[i], n)) || (prefix == Pad(splits[i], n) && ch < PadAt(splits[i], n))
    {
      PadSnoc(splits[i], n);
      LessSnoc(Pad(splits[i], n), PadAt(splits[i], n), prefix, ch);
      LessSnoc(prefix, ch, Pad(splits[i], n), PadAt(splits[i], n));
    }
  }

  /** Children that serve the keys with their own next byte make a node that serves all of them. */
  lemma InnerServes(splits: seq<Text>, lower: nat, upper: nat, prefix: Text, maxDepth: int, child: seq<TrieNode>)
    requires Covers(splits, prefix, lower, upper) && Low7(prefix)
    requires |prefix| < maxDepth && lower < upper
    requires WellFormed(Inner(|prefix|, child))
    requires forall c: Byte :: 0 <= c < 128 ==> Serves(child[c], splits, prefix + [c], maxDepth)
    ensures Serves(Inner(|prefix|, child), splits, prefix, maxDepth)
  {
    hide Less, Pad;
    var n := |prefix|;
    var node := Inner(n, child);
    forall key | Pad(key, n) == prefix
      ensures Answers(Find(node, key), splits, maxDepth, key)
    {
      var c := ChildIndex(key, n);
      if c < 0 {
        assert HighByteAt(splits, key, n) by {
          PadSmall(key, n, prefix);
          assert Pad(splits[lower], n) == Pad(key, n);
        }
      } else {
        PadSnoc(key, n);
        assert Pad(key, |prefix + [c]|) == prefix + [c];
      }
    }
  }

  lemma PadSmall(key: Text, n: nat, prefix: Text)
    requires Pad(key, n) == prefix && Low7(prefix) && n <= |key|
    ensures forall j :: 0 <= j < n ==> key[j] < 128
  {
    forall j | 0 <= j < n
      ensures key[j] < 128
    {
      assert prefix[j] == PadAt(key, j);
    }
  }

  /** How far the inner loop moves the bound: past the splits whose next byte is at most ch. */
  lemma BoundStep(splits: seq<Text>, prefix: Text, lower: nat, upper: nat, ch: int, trial: Text, bound: nat)
    requires Sorted(splits) && Covers(splits, prefix, lower, upper) && lower <= bound <= upper
    requires 0 <= ch < 255 && IsTrial(trial, prefix, ch + 1)
    requires forall i :: lower <= i < bound ==> Less(splits[i], trial)
    requires bound < upper ==> !Less(splits[bound], trial)
    ensures forall i :: lower <= i < bound ==> PadAt(splits[i], |prefix|) <= ch
    ensures forall i :: bound <= i < upper ==> PadAt(splits[i], |prefix|) > ch
  {
    hide Less, Pad, PadAt, IsTrial;
    forall i | lower <= i < upper
      ensures PadAt(splits[i], |prefix|) <= ch <==> i < bound
    {
      if i >= bound {
        NotBelow(splits[bound], splits[i], trial);
      }
      TrialSide(splits[i], prefix, ch + 1, trial);
    }
  }

  /** The prefix with one more byte. */
  predicate IsTrial(trial: Text, prefix: Text, next: Byte) {
    |trial| == |prefix| + 1 && trial[..|prefix|] == prefix && trial[|prefix|] == next
  }

  lemma TrialSide(s: Text, prefix: Text, next: Byte, trial: Text)
    requires Pad(s, |prefix|) == prefix && next >= 1 && IsTrial(trial, prefix, next)
    ensures Less(s, trial) <==> PadAt(s, |prefix|) < next
  {
    hide Less, Pad, PadAt;
    assert trial == prefix + [next];
    TrialCompares(s, prefix, next);
  }

  /** What is not below b is not below anything that b is not below. */
  lemma NotBelow(b: Text, s: Text, t: Text)
    requires b == s || !Less(s, b)
    requires !Less(b, t)
    ensures !Less(s, t)
  {
    hide Less;
    if Less(s, t) && b != s {
      LessTransitive(b, s, t);
    }
  }

  method BuildTrie(splits: seq<Text>, lower: nat, upper: nat, prefix: Text, maxDepth: int) returns (node: TrieNode)
    requires Sorted(splits) && lower <= upper <= |splits|
    ensures WellFormed(node)
    ensures Covers(splits, prefix, lower, upper) && Low7(prefix) ==> Serves(node, splits, prefix, maxDepth)
    decreases maxDepth - |prefix|
  {
    hide Less, Pad, PadAt, Serves;
    var depth := |prefix|;
    if depth >= maxDepth || lower == upper {
      node := Leaf(depth, splits, lower, upper);
      if Covers(splits, prefix, lower, upper) && Low7(prefix) {
        LeafServes(splits, lower, upper, prefix, maxDepth);
      }
      return;
    }
    ghost var covered := Covers(splits, prefix, lower, upper) && Low7(prefix);
    var child: seq<TrieNode> := [];
    var trial := prefix + [0];
    var currentBound := lower;
    var ch := 0;
    while ch < 255
      invariant 0 <= ch <= 255 && |child| == ch && lower <= currentBound <= upper
      invariant |trial| == depth + 1 && trial[..depth] == prefix
      invariant forall c :: 0 <= c < ch ==> WellFormed(child[c])
      invariant covered ==> forall i :: lower <= i < currentBound ==> PadAt(splits[i], depth) < ch
      invariant covered ==> forall i :: currentBound <= i < upper ==> PadAt(splits[i], depth) >= ch
      invariant covered ==> forall c: Byte :: 0 <= c < ch && c < 128 ==> Serves(child[c], splits, prefix + [c], maxDepth)
    {
      trial := trial[depth := ch + 1];
      var from := currentBound;
      assert covered ==> forall i :: lower <= i < from ==> Less(splits[i], trial) by {
        if covered {
          BelowTrial(splits, prefix, lower, upper, ch, trial, from);
        }
      }
      while currentBound < upper
        invariant from <= currentBound <= upper
        invariant forall i :: from <= i < currentBound ==> Less(splits[i], trial)
      {
        if !Less(splits[currentBound], trial) {
          break;
        }
        currentBound := currentBound + 1;
      }
      if covered {
        BoundStep(splits, prefix, lower, upper, ch, trial, currentBound);
      }
      trial := trial[depth := ch];
      assert trial == prefix + [ch];
      if covered {
        ChildCovers(splits, prefix, lower, upper, ch, from, currentBound);
      }
      var next := BuildTrie(splits, from, currentBound, trial, maxDepth);
      child := child + [next];
      ch := ch + 1;
    }
    trial := trial[depth := 127];
    var last := BuildTrie(splits, currentBound, upper, trial, maxDepth);
    child := child + [last];
    node := Inner(depth, child);
    if covered {
      InnerServes(splits, lower, upper, prefix, maxDepth, child);
    }
  }

  lemma BelowTrial(splits: seq<Text>, prefix: Text, lower: nat, upper: nat, ch: int, trial: Text, from: nat)
    requires Covers(splits, prefix, lower, upper) && lower <= from <= upper
    requires 0 <= ch < 255 && IsTrial(trial, prefix, ch + 1)
    requires forall i :: lower <= i < from ==> PadAt(splits[i], |prefix|) < ch
    ensures forall i :: lower <= i < from ==> Less(splits[i], trial)
  {
    hide Less, Pad, PadAt, IsTrial;
    forall i | lower <= i < from
      ensures Less(splits[i], trial)
    {
      TrialSide(splits[i], prefix, ch + 1, trial);
    }
  }

  /**
   * What configure builds: a lookup fails exactly on the keys whose first byte from 128 up is met at a node that still
   * has splits to tell apart, and returns the number of splits below the key on all others.
   */
  method Configure(splits: seq<Text>, maxDepth: int) returns (trie: TrieNode)
    requires Sorted(splits)
    ensures WellFormed(trie)
    ensures forall key :: Answers(Find(trie, key), splits, maxDepth, key)
  {
    trie := BuildTrie(splits, 0, |splits|, [], maxDepth);
    forall s: Text
      ensures Pad(s, 0) == []
    {
    }
    assert Covers(splits, [], 0, |splits|);
    assert forall key :: Answers(Find(trie, key), splits, maxDepth, key) by {
      forall key
        ensures Answers(Find(trie, key), splits, maxDepth, key)
      {
        assert Pad(key, 0) == [];
      }
    }
  }

  /** Keys of bytes below 128 in the first maxDepth positions are always placed. */
  lemma PlainKeysArePlaced(splits: seq<Text>, maxDepth: int, key: Text, r: Option<nat>)
    requires Answers(r, splits, maxDepth, key)
    requires forall k :: 0 <= k < maxDepth && k < |key| ==> key[k] < 128
    ensures r.Some? && IsPartition(splits, key, r.value)
  {
  }

  /** The partition is the number of splits below the key, and it grows with the key. */
  lemma PartitionMonotone(splits: seq<Text>, small: Text, large: Text, r: nat, s: nat)
    requires !Less(large, small) && IsPartition(splits, small, r) && IsPartition(splits, large, s)
    ensures r <= s
    ensures r == CountBelow(splits, small)
  {
    hide Less;
    if s < r {
      LessTransitiveRight(splits[s], small, large);
    }
    PartitionCounts(splits, small, r);
  }

  function CountBelow(splits: seq<Text>, key: Text): nat {
    if splits == [] then 0
    else CountBelow(splits[..|splits| - 1], key) + (if Less(splits[|splits| - 1], key) then 1 else 0)
  }

  lemma {:induction false} PartitionCounts(splits: seq<Text>, key: Text, r: nat)
    requires IsPartition(splits, key, r)
    ensures r == CountBelow(splits, key)
  {
    hide Less;
    var n := |splits| - 1;
    if n >= 0 {
      PartitionCounts(splits[..n], key, if r == n + 1 then n else r);
    }
  }

  lemma {:induction false} LessTransitiveRight(a: Text, b: Text, c: Text)
    requires Less(a, b) && !Less(c, b)
    ensures Less(a, c)
  {
    if a != [] && c != [] && a[0] == b[0] && b[0] == c[0] {
      LessTransitiveRight(a[1..], b[1..], c[1..]);
    }
  }

  /** A key equal to the only split point, which belongs in partition 0, is refused: its byte 200 is the index -56. */
  lemma SplitPointRefused(r: Option<nat>)
    requires Answers(r, [[200]], 2, [200])
    ensures r == None && IsPartition([[200]], [200], 0)
  {
    var key: Text := [200];
    assert Pad([key][0], 0) == Pad(key, 0);
    assert HighByteAt([key], key, 0);
    LessIrreflexive(key);
  }
}
