/**
 * Distance-based dependency-edge pruning (Rush and Petrov, 2012).
 *
 * Training records, for every pair of part-of-speech tag types, the longest
 * gold dependency seen between a parent with the first tag and a child with
 * the second. Annotation then prunes every candidate edge of a sentence
 * whose length exceeds that maximum for its tag pair. Tags are mapped to ids
 * by an alphabet that keeps growing during annotation, so tags first seen
 * there get ids beyond the table and are never pruned.
 */
module PosTagPruning {
  import opened Wrappers

  /** |i - j|. */
  function Dist(i: int, j: int): nat {
    if i >= j then i - j else j - i
  }

  predicate Distinct(xs: seq<string>) {
    forall i, j :: 0 <= i < j < |xs| ==> xs[i] != xs[j]
  }

  /** The alphabet after looking up every tag in order, adding the ones it lacks. */
  function Grow(alphabet: seq<string>, tags: seq<string>): seq<string>
    decreases |tags|
  {
    if |tags| == 0 then alphabet
    else
      var a := Grow(alphabet, tags[..|tags| - 1]);
      if tags[|tags| - 1] in a then a else a + [tags[|tags| - 1]]
  }

  /** Looking tags up never drops or reorders an entry, keeps the ids distinct and ends up knowing every tag. */
  lemma {:induction false} GrowExtends(alphabet: seq<string>, tags: seq<string>)
    requires Distinct(alphabet)
    ensures alphabet <= Grow(alphabet, tags) && Distinct(Grow(alphabet, tags))
    ensures forall t :: t in tags ==> t in Grow(alphabet, tags)
    ensures forall t :: t in Grow(alphabet, tags) ==> t in alphabet || t in tags
    decreases |tags|
  {
    if |tags| > 0 {
      var pre := tags[..|tags| - 1];
      GrowExtends(alphabet, pre);
      assert forall t :: t in tags ==> t in pre || t == tags[|tags| - 1];
    }
  }

  /** Looking up two runs of tags one after the other is looking up their concatenation. */
  lemma {:induction false} GrowAppend(alphabet: seq<string>, x: seq<string>, y: seq<string>)
    ensures Grow(alphabet, x + y) == Grow(Grow(alphabet, x), y)
    decreases |y|
  {
    if |y| == 0 {
      assert x + y == x;
    } else {
      var y' := y[..|y| - 1];
      GrowAppend(alphabet, x, y');
      assert (x + y)[..|x + y| - 1] == x + y';
    }
  }

  /** Looking up tags that are all known leaves the alphabet as it is. */
  lemma {:induction false} GrowKnown(alphabet: seq<string>, tags: seq<string>)
    requires forall t :: t in tags ==> t in alphabet
    ensures Grow(alphabet, tags) == alphabet
    decreases |tags|
  {
    if |tags| > 0 {
      GrowKnown(alphabet, tags[..|tags| - 1]);
    }
  }

  /** The first position of x. */
  function IndexOf(xs: seq<string>, x: string): (r: nat)
    requires x in xs
    ensures r < |xs| && xs[r] == x
  {
    if xs[0] == x then 0 else 1 + IndexOf(xs[1..], x)
  }

  /** No earlier position holds x. */
  lemma {:induction false} IndexOfIsFirst(xs: seq<string>, x: string, q: nat)
    requires x in xs && q < IndexOf(xs, x)
    ensures xs[q] != x
  {
    if q > 0 {
      IndexOfIsFirst(xs[1..], x, q - 1);
    }
  }

  /** In a list without repeats, the first position of an entry is its only position. */
  lemma IndexOfDistinct(xs: seq<string>, q: nat)
    requires Distinct(xs) && q < |xs|
    ensures IndexOf(xs, xs[q]) == q
  {
    var r := IndexOf(xs, xs[q]);
    assert xs[r] == xs[q];
  }

  /** Which candidate edges (parent i, child j) of a sentence are pruned. */
  class DepEdgeMask {
    const n: nat
    const pruned: array2<bool>

    predicate Valid() {
      pruned.Length0 == n && pruned.Length1 == n
    }

    /** A mask over n tokens where every edge is kept (isKept) or every edge is pruned. */
    constructor (n: nat, isKept: bool)
      ensures Valid() && this.n == n && fresh(pruned)
      ensures forall i, j :: 0 <= i < n && 0 <= j < n ==> pruned[i, j] == !isKept
    {
      this.n := n;
      pruned := new bool[n, n]((i, j) => !isKept);
    }

    method SetIsPruned(i: nat, j: nat, v: bool)
      requires Valid() && i < n && j < n
      modifies pruned
      ensures pruned[i, j] == v
      ensures forall a, b :: 0 <= a < n && 0 <= b < n && (a, b) != (i, j) ==> pruned[a, b] == old(pruned[a, b])
    {
      pruned[i, j] := v;
    }
  }

  /** An annotated sentence: its tags, its gold parents (-1 for the wall) and its edge mask, if any. */
  class AnnoSentence {
    const posTags: seq<string>
    const parents: seq<int>
    var mask: DepEdgeMask?

    constructor (posTags: seq<string>, parents: seq<int>, mask: DepEdgeMask?)
      ensures this.posTags == posTags && this.parents == parents && this.mask == mask
    {
      this.posTags := posTags;
      this.parents := parents;
      this.mask := mask;
    }
  }

  /** One parent per token, each a token index or -1. */
  predicate IsTree(sent: AnnoSentence) {
    |sent.parents| == |sent.posTags| &&
    forall c :: 0 <= c < |sent.parents| ==> -1 <= sent.parents[c] < |sent.posTags|
  }

  /** Token c of gold sentence s has a real (non-wall) parent, a token of the sentence. */
  predicate GoldEdge(gold: seq<AnnoSentence>, s: int, c: int) {
    && 0 <= s < |gold| && 0 <= c < |gold[s].parents| && c < |gold[s].posTags|
    && 0 <= gold[s].parents[c] < |gold[s].posTags|
  }

  /** The tag of the parent and the tag of the child of gold edge (s, c). */
  function ParentTag(gold: seq<AnnoSentence>, s: int, c: int): string
    requires GoldEdge(gold, s, c)
  {
    gold[s].posTags[gold[s].parents[c]]
  }

  function ChildTag(gold: seq<AnnoSentence>, s: int, c: int): string
    requires GoldEdge(gold, s, c)
  {
    gold[s].posTags[c]
  }

  /** Every tag of the sentences, in order. */
  function AllTags(sents: seq<AnnoSentence>): seq<string> {
    if |sents| == 0 then [] else AllTags(sents[..|sents| - 1]) + sents[|sents| - 1].posTags
  }

  lemma {:induction false} AllTagsContains(sents: seq<AnnoSentence>, s: nat, i: nat)
    requires s < |sents| && i < |sents[s].posTags|
    ensures sents[s].posTags[i] in AllTags(sents)
    decreases |sents|
  {
    if s < |sents| - 1 {
      AllTagsContains(sents[..|sents| - 1], s, i);
    } else {
      assert AllTags(sents)[|AllTags(sents[..|sents| - 1])| + i] == sents[s].posTags[i];
    }
  }

  /** Every tag of every sentence is in the alphabet. */
  predicate AllKnown(sents: seq<AnnoSentence>, alphabet: seq<string>) {
    forall k, i :: 0 <= k < |sents| && 0 <= i < |sents[k].posTags| ==> sents[k].posTags[i] in alphabet
  }

  // ------------------------------------------------------------ the trained table, as a value

  /** The table as a value: entries keyed by (parent tag id, child tag id); a missing entry is 0. */
  type Table = map<(int, int), int>

  function Entry(m: Table, a: int, b: int): int {
    if (a, b) in m then m[(a, b)] else 0
  }

  /** The ids of the tags in an alphabet that knows them all: their first positions. */
  function TagIds(alphabet: seq<string>, tags: seq<string>): (ids: seq<nat>)
    requires forall t :: t in tags ==> t in alphabet
    ensures |ids| == |tags|
    ensures forall i :: 0 <= i < |tags| ==> ids[i] < |alphabet| && alphabet[ids[i]] == tags[i]
  {
    seq(|tags|, i requires 0 <= i < |tags| => IndexOf(alphabet, tags[i]))
  }

  /** Appending to an alphabet does not move the tags it already had. */
  lemma IndexOfPrefix(xs: seq<string>, ys: seq<string>, x: string)
    requires xs <= ys && x in xs
    ensures IndexOf(ys, x) == IndexOf(xs, x)
  {
    var q := IndexOf(xs, x);
    var r := IndexOf(ys, x);
    assert ys[q] == x;
    if r < q {
      IndexOfIsFirst(xs, x, r);
    }
    if q < r {
      IndexOfIsFirst(ys, x, q);
    }
  }

  lemma TagIdsPrefix(xs: seq<string>, ys: seq<string>, tags: seq<string>)
    requires xs <= ys && forall t :: t in tags ==> t in xs
    ensures TagIds(ys, tags) == TagIds(xs, tags)
  {
    forall i | 0 <= i < |tags|
      ensures TagIds(ys, tags)[i] == TagIds(xs, tags)[i]
    {
      IndexOfPrefix(xs, ys, tags[i]);
    }
  }

  /** Entry (a, b) raised to d if d exceeds it. */
  function Raise(m: Table, a: int, b: int, d: int): Table {
    if d > Entry(m, a, b) then m[(a, b) := d] else m
  }

  /** Every parent is a token or -1, and there is one id per token. */
  predicate Parented(parents: seq<int>, ids: seq<nat>) {
    |parents| == |ids| && forall k :: 0 <= k < |parents| ==> -1 <= parents[k] < |ids|
  }

  /** A sentence whose tag ids are all below n. */
  predicate SentenceFits(n: nat, parents: seq<int>, ids: seq<nat>) {
    Parented(parents, ids) && forall k :: 0 <= k < |ids| ==> ids[k] < n
  }

  /**
   * The table after recording the first c tokens of one sentence: for each
   * token k whose parent p is not the wall, entry (ids[p], ids[k]) is raised
   * to |p - k|.
   */
  function RecordEdges(m: Table, parents: seq<int>, ids: seq<nat>, c: nat): Table
    requires Parented(parents, ids) && c <= |parents|
  {
    if c == 0 then m
    else
      var r := RecordEdges(m, parents, ids, c - 1);
      var p := parents[c - 1];
      if p == -1 then r else Raise(r, ids[p], ids[c - 1], Dist(p, c - 1))
  }

  /** The gold trees and an alphabet that knows all their tags. */
  predicate GoldKnown(gold: seq<AnnoSentence>, known: seq<string>) {
    (forall k :: 0 <= k < |gold| ==> IsTree(gold[k])) && AllKnown(gold, known)
  }

  /** The table after recording the first s gold sentences. */
  function TrainTable(gold: seq<AnnoSentence>, known: seq<string>, s: nat): Table
    requires GoldKnown(gold, known) && s <= |gold|
  {
    if s == 0 then map[]
    else
      var sent := gold[s - 1];
      assert forall t :: t in sent.posTags ==> t in known;
      RecordEdges(TrainTable(gold, known, s - 1), sent.parents, TagIds(known, sent.posTags), |sent.parents|)
  }

  /** Training on one more sentence records its edges, with the ids its tags have, into the table so far. */
  lemma TrainTableStep(gold: seq<AnnoSentence>, known: seq<string>, s: nat)
    requires GoldKnown(gold, known) && s < |gold|
    ensures forall t :: t in gold[s].posTags ==> t in known
    ensures SentenceFits(|known|, gold[s].parents, TagIds(known, gold[s].posTags))
    ensures TrainTable(gold, known, s + 1)
         == RecordEdges(TrainTable(gold, known, s), gold[s].parents, TagIds(known, gold[s].posTags), |gold[s].parents|)
  {
  }

  /** Recording edges only ever raises entries. */
  lemma {:induction false} RecordEdgesGrows(m: Table, parents: seq<int>, ids: seq<nat>, c: nat)
    requires Parented(parents, ids) && c <= |parents|
    ensures forall a, b :: Entry(RecordEdges(m, parents, ids, c), a, b) >= Entry(m, a, b)
  {
    if c > 0 {
      RecordEdgesGrows(m, parents, ids, c - 1);
    }
  }

  /** After recording c tokens, every recorded non-wall edge fits within its entry. */
  lemma {:induction false} RecordEdgesCovers(m: Table, parents: seq<int>, ids: seq<nat>, c: nat)
    requires Parented(parents, ids) && c <= |parents|
    ensures forall k :: 0 <= k < c && parents[k] != -1 ==>
      Entry(RecordEdges(m, parents, ids, c), ids[parents[k]], ids[k]) >= Dist(parents[k], k)
  {
    if c > 0 {
      RecordEdgesCovers(m, parents, ids, c - 1);
    }
  }

  /** After recording c tokens, every entry is its starting value or the length of a recorded edge with that id pair. */
  lemma {:induction false} RecordEdgesAttained(m: Table, parents: seq<int>, ids: seq<nat>, c: nat)
    requires Parented(parents, ids) && c <= |parents|
    ensures forall a, b ::
      var r := RecordEdges(m, parents, ids, c);
      Entry(r, a, b) == Entry(m, a, b) ||
      exists k :: 0 <= k < c && parents[k] != -1 && ids[parents[k]] == a && ids[k] == b && Entry(r, a, b) == Dist(parents[k], k)
  {
    if c > 0 {
      RecordEdgesAttained(m, parents, ids, c - 1);
      var prev := RecordEdges(m, parents, ids, c - 1);
      var r := RecordEdges(m, parents, ids, c);
      forall a, b
        ensures Entry(r, a, b) == Entry(m, a, b) ||
          exists k :: 0 <= k < c && parents[k] != -1 && ids[parents[k]] == a && ids[k] == b && Entry(r, a, b) == Dist(parents[k], k)
      {
        if Entry(r, a, b) != Entry(prev, a, b) {
          assert parents[c - 1] != -1 && ids[parents[c - 1]] == a && ids[c - 1] == b && Entry(r, a, b) == Dist(parents[c - 1], c - 1);
        }
      }
    }
  }

  /** The trained table holds no negative entry. */
  lemma {:induction false} TrainTableNonNegative(gold: seq<AnnoSentence>, known: seq<string>, s: nat)
    requires GoldKnown(gold, known) && s <= |gold|
    ensures forall a, b :: Entry(TrainTable(gold, known, s), a, b) >= 0
  {
    if s > 0 {
      TrainTableNonNegative(gold, known, s - 1);
      TrainTableStep(gold, known, s - 1);
      var sent := gold[s - 1];
      RecordEdgesGrows(TrainTable(gold, known, s - 1), sent.parents, TagIds(known, sent.posTags), |sent.parents|);
    }
  }

  /** Gold edge (s, c), from a parent tagged t to a child tagged u, is no longer than entry (t, u) of the table. */
  ghost predicate EdgeWithin(gold: seq<AnnoSentence>, known: seq<string>, t: Table, s: int, c: int) {
    GoldEdge(gold, s, c) && ParentTag(gold, s, c) in known && ChildTag(gold, s, c) in known ==>
      Entry(t, IndexOf(known, ParentTag(gold, s, c)), IndexOf(known, ChildTag(gold, s, c))) >= Dist(gold[s].parents[c], c)
  }

  /** Every gold edge of the first s sentences is within the table's entry for its tag pair. */
  lemma {:induction false} TrainTableCovers(gold: seq<AnnoSentence>, known: seq<string>, s: nat)
    requires GoldKnown(gold, known) && s <= |gold|
    ensures forall s', c' :: 0 <= s' < s ==> EdgeWithin(gold, known, TrainTable(gold, known, s), s', c')
  {
    if s > 0 {
      TrainTableCovers(gold, known, s - 1);
      TrainTableStep(gold, known, s - 1);
      var sent := gold[s - 1];
      var ids := TagIds(known, sent.posTags);
      var prev := TrainTable(gold, known, s - 1);
      RecordEdgesGrows(prev, sent.parents, ids, |sent.parents|);
      RecordEdgesCovers(prev, sent.parents, ids, |sent.parents|);
      var r := TrainTable(gold, known, s);
      assert r == RecordEdges(prev, sent.parents, ids, |sent.parents|);
      forall s', c' | 0 <= s' < s
        ensures EdgeWithin(gold, known, r, s', c')
      {
        if GoldEdge(gold, s', c') {
          var a := IndexOf(known, ParentTag(gold, s', c'));
          var b := IndexOf(known, ChildTag(gold, s', c'));
          if s' == s - 1 {
            assert ids[sent.parents[c']] == a;
            assert ids[c'] == b;
            assert Entry(r, a, b) >= Dist(sent.parents[c'], c');
          } else {
            assert EdgeWithin(gold, known, prev, s', c');
            assert Entry(r, a, b) >= Entry(prev, a, b);
          }
        }
      }
    }
  }

  /**
   * Value v of entry (a, b) is 0 or the length of a gold edge among the
   * first s sentences from a parent tagged known[a] to a child tagged known[b].
   */
  ghost predicate Attained(gold: seq<AnnoSentence>, known: seq<string>, s: int, a: nat, b: nat, v: int)
    requires a < |known| && b < |known|
  {
    v == 0 ||
    exists s', c' :: GoldEdge(gold, s', c') && s' < s && known[a] == ParentTag(gold, s', c')
      && known[b] == ChildTag(gold, s', c') && v == Dist(gold[s'].parents[c'], c')
  }

  /**
   * Every non-zero entry (t, u) of the table is the length of some gold edge
   * of the first s sentences from a parent tagged t to a child tagged u.
   */
  lemma {:induction false} TrainTableAttained(gold: seq<AnnoSentence>, known: seq<string>, s: nat)
    requires GoldKnown(gold, known) && s <= |gold|
    ensures forall a, b :: 0 <= a < |known| && 0 <= b < |known| ==> Attained(gold, known, s, a, b, Entry(TrainTable(gold, known, s), a, b))
  {
    var r := TrainTable(gold, known, s);
    if s > 0 {
      TrainTableAttained(gold, known, s - 1);
      TrainTableStep(gold, known, s - 1);
      var sent := gold[s - 1];
      var ids := TagIds(known, sent.posTags);
      var prev := TrainTable(gold, known, s - 1);
      RecordEdgesAttained(prev, sent.parents, ids, |sent.parents|);
      forall a, b | 0 <= a < |known| && 0 <= b < |known|
        ensures Attained(gold, known, s, a, b, Entry(r, a, b))
      {
        if Entry(r, a, b) != Entry(prev, a, b) {
          var k :| 0 <= k < |sent.parents| && sent.parents[k] != -1 && ids[sent.parents[k]] == a && ids[k] == b
                   && Entry(r, a, b) == Dist(sent.parents[k], k);
          assert GoldEdge(gold, s - 1, k);
        } else if Entry(r, a, b) != 0 {
          assert Attained(gold, known, s - 1, a, b, Entry(prev, a, b));
          var s', c' :| GoldEdge(gold, s', c') && s' < s - 1 && known[a] == ParentTag(gold, s', c')
            && known[b] == ChildTag(gold, s', c') && Entry(prev, a, b) == Dist(gold[s'].parents[c'], c');
          assert GoldEdge(gold, s', c') && s' < s;
        }
      }
    }
  }

  /** A sentence's mask, if it has one, is n x n for its n tokens. */
  predicate MaskFits(sent: AnnoSentence) reads sent {
    sent.mask != null ==> sent.mask.Valid() && sent.mask.n == |sent.posTags|
  }

  /** A mask's prunings as a value; without a mask, nothing is pruned. */
  ghost function PrunedValues(mask: DepEdgeMask?, n: nat): (m: seq<seq<bool>>)
    requires mask != null ==> mask.Valid() && mask.n == n
    reads if mask != null then {mask.pruned} else {}
    ensures |m| == n && forall i :: 0 <= i < n ==> |m[i]| == n
    ensures forall i, j :: 0 <= i < n && 0 <= j < n ==> m[i][j] == (mask != null && mask.pruned[i, j])
  {
    if mask == null then seq(n, _ => seq(n, _ => false))
    else
      var m: DepEdgeMask := mask;
      seq(n, i requires 0 <= i < n reads m.pruned => seq(n, j requires 0 <= j < n reads m.pruned => m.pruned[i, j]))
  }

  /** Sentence `sent` has the mask `mask`, which fits it and prunes exactly what `was` says. */
  ghost predicate Snapshot(sent: AnnoSentence, mask: DepEdgeMask?, was: seq<seq<bool>>)
    reads sent, MaskArray(sent)
  {
    MaskFits(sent) && sent.mask == mask && was == PrunedValues(mask, |sent.posTags|)
  }

  /** The arrays of the masks that are there. */
  function Arrays(masks: seq<DepEdgeMask?>): set<object> {
    set k | 0 <= k < |masks| && masks[k] != null :: masks[k].pruned
  }

  /** No sentence is listed twice and no two masks share an array. */
  predicate Apart(sents: seq<AnnoSentence>, masks: seq<DepEdgeMask?>) {
    && (forall k, l :: 0 <= k < |sents| && 0 <= l < |sents| && k != l ==> sents[k] != sents[l])
    && (forall k, l :: 0 <= k < |masks| && 0 <= l < |masks| && k != l && masks[k] != null && masks[l] != null ==>
          masks[k].pruned != masks[l].pruned)
  }

  /** The mask array of a sentence, if it has one. */
  ghost function MaskArray(sent: AnnoSentence): set<object> reads sent {
    if sent.mask != null then {sent.mask.pruned} else {}
  }

  /** The mask arrays the sentences already have. */
  ghost function MaskArrays(sents: seq<AnnoSentence>): set<object> reads sents {
    set k | 0 <= k < |sents| && sents[k].mask != null :: sents[k].mask.pruned
  }

  class PosTagDistancePruner {
    var alphabet: seq<string>
    var mat: array2?<int>

    /** Ids are distinct; the table is square, covers the tags known at training time and holds no negative entry. */
    ghost predicate Valid() reads this, mat {
      && Distinct(alphabet)
      && (mat != null ==>
            && mat.Length0 == mat.Length1 <= |alphabet|
            && forall a, b :: 0 <= a < mat.Length0 && 0 <= b < mat.Length1 ==> mat[a, b] >= 0)
    }

    /** Whether annotation prunes the edge from token i to token j of a sentence with tag ids `ids`. */
    ghost predicate PrunesEdge(ids: seq<nat>, i: nat, j: nat)
      reads this`mat, mat
      requires mat != null && mat.Length0 == mat.Length1 && i < |ids| && j < |ids|
    {
      ids[i] < mat.Length0 && ids[j] < mat.Length0 && Dist(i, j) > mat[ids[i], ids[j]]
    }

    constructor ()
      ensures Valid() && alphabet == [] && mat == null
    {
      alphabet := [];
      mat := null;
    }

    /** The id of every tag, adding unknown tags to the alphabet as they are met. */
    method LabelIds(tags: seq<string>) returns (ids: seq<nat>)
      requires Distinct(alphabet)
      modifies this`alphabet
      ensures alphabet == Grow(old(alphabet), tags) && Distinct(alphabet)
      ensures |ids| == |tags| && forall i :: 0 <= i < |tags| ==> ids[i] < |alphabet| && alphabet[ids[i]] == tags[i]
    {
      ids := [];
      var i := 0;
      while i < |tags|
        invariant 0 <= i <= |tags|
        invariant alphabet == Grow(old(alphabet), tags[..i]) && Distinct(alphabet)
        invariant |ids| == i && forall k :: 0 <= k < i ==> ids[k] < |alphabet| && alphabet[ids[k]] == tags[k]
      {
        assert tags[..i + 1][..i] == tags[..i];
        var t := tags[i];
        if t !in alphabet {
          alphabet := alphabet + [t];
        }
        ids := ids + [IndexOf(alphabet, t)];
        i := i + 1;
      }
      assert tags[..i] == tags;
    }

    /** Adds every tag of the gold sentences to the alphabet. */
    method PopulateAlphabet(gold: seq<AnnoSentence>)
      requires Distinct(alphabet)
      modifies this`alphabet
      ensures alphabet == Grow(old(alphabet), AllTags(gold)) && Distinct(alphabet)
      ensures AllKnown(gold, alphabet)
    {
      var s := 0;
      while s < |gold|
        invariant 0 <= s <= |gold|
        invariant alphabet == Grow(old(alphabet), AllTags(gold[..s])) && Distinct(alphabet)
      {
        assert gold[..s + 1][..s] == gold[..s];
        GrowAppend(old(alphabet), AllTags(gold[..s]), gold[s].posTags);
        var ids := LabelIds(gold[s].posTags);
        s := s + 1;
      }
      assert gold[..s] == gold;
      GrowExtends(old(alphabet), AllTags(gold));
      forall k, i | 0 <= k < |gold| && 0 <= i < |gold[k].posTags|
        ensures gold[k].posTags[i] in alphabet
      {
        AllTagsContains(gold, k, i);
      }
    }

    /** The table, read as a value: mat[a, b] is entry (a, b) of t everywhere. */
    ghost predicate MatIs(t: Table)
      reads this`mat, mat
    {
      && mat != null && mat.Length0 == mat.Length1
      && forall a, b :: 0 <= a < mat.Length0 && 0 <= b < mat.Length0 ==> mat[a, b] == Entry(t, a, b)
    }

    /** Raises mat[ids[p], ids[c]] to |p - c| for every token c whose parent p is not the wall. */
    method RecordSentence(parents: seq<int>, ids: seq<nat>, ghost t: Table)
      requires mat != null && SentenceFits(mat.Length0, parents, ids) && MatIs(t)
      modifies mat
      ensures MatIs(RecordEdges(t, parents, ids, |parents|))
    {
      var c := 0;
      while c < |parents|
        invariant 0 <= c <= |parents|
        invariant MatIs(RecordEdges(t, parents, ids, c))
      {
        var p := parents[c];
        if p != -1 {
          var dist := Dist(p, c);
          if dist > mat[ids[p], ids[c]] {
            mat[ids[p], ids[c]] := dist;
          }
        }
        c := c + 1;
      }
    }

    /**
     * Builds the table from the gold trees. Afterwards the alphabet knows
     * every gold tag, and for tags t and u the entry mat[t, u] is at least
     * |p - c| for every gold edge from a parent p tagged t to a child c tagged
     * u, and is either 0 or the length of one such edge: it is the longest
     * such length, and 0 when there is none.
     */
    method Train(gold: seq<AnnoSentence>)
      requires Valid()
      requires forall s :: 0 <= s < |gold| ==> IsTree(gold[s])
      modifies this
      ensures Valid() && mat != null && fresh(mat)
      ensures alphabet == Grow(old(alphabet), AllTags(gold)) && mat.Length0 == |alphabet|
      ensures AllKnown(gold, alphabet) && MatIs(TrainTable(gold, alphabet, |gold|))
      ensures forall s, c :: 0 <= s < |gold| ==> EdgeWithin(gold, alphabet, TrainTable(gold, alphabet, |gold|), s, c)
      ensures forall a, b :: 0 <= a < |alphabet| && 0 <= b < |alphabet| ==> Attained(gold, alphabet, |gold|, a, b, mat[a, b])
    {
      PopulateAlphabet(gold);
      var n := |alphabet|;
      mat := new int[n, n]((a, b) => 0);
      RecordAll(gold);
      TrainTableNonNegative(gold, alphabet, |gold|);
      TrainTableCovers(gold, alphabet, |gold|);
      TrainTableAttained(gold, alphabet, |gold|);
    }

    /** The table holds what training on the first s gold sentences gives. */
    ghost predicate Recorded(gold: seq<AnnoSentence>, s: nat)
      reads this`alphabet, this`mat, mat
    {
      GoldKnown(gold, alphabet) && s <= |gold| && MatIs(TrainTable(gold, alphabet, s)) && mat.Length0 == |alphabet|
    }

    /** Records the edges of every gold sentence, in order, into a zeroed table. */
    method RecordAll(gold: seq<AnnoSentence>)
      requires Distinct(alphabet) && Recorded(gold, 0)
      modifies mat
      ensures Recorded(gold, |gold|)
    {
      var s := 0;
      while s < |gold|
        invariant Recorded(gold, s)
      {
        RecordNext(gold, s);
        s := s + 1;
      }
    }

    /** Records the edges of gold sentence s, the table holding those of the sentences before it. */
    method RecordNext(gold: seq<AnnoSentence>, s: nat)
      requires Distinct(alphabet) && Recorded(gold, s) && s < |gold|
      modifies mat
      ensures Recorded(gold, s + 1)
    {
      TrainTableStep(gold, alphabet, s);
      var ids := TagIds(alphabet, gold[s].posTags);
      RecordSentence(gold[s].parents, ids, TrainTable(gold, alphabet, s));
    }

    /**
     * Prunes edge (i, b) for every b when |i - b| exceeds the table's entry
     * for the tags of i and b; an edge with a tag unknown at training time is
     * left alone.
     */
    method AnnotateRow(mask: DepEdgeMask, ids: seq<nat>, i: nat)
      requires mat != null && mat.Length0 == mat.Length1
      requires mask.Valid() && mask.n == |ids| && i < |ids|
      modifies mask.pruned
      ensures forall b :: 0 <= b < |ids| ==> mask.pruned[i, b] == (old(mask.pruned[i, b]) || PrunesEdge(ids, i, b))
      ensures forall a, b :: 0 <= a < |ids| && 0 <= b < |ids| && a != i ==> mask.pruned[a, b] == old(mask.pruned[a, b])
    {
      var j := 0;
      while j < |ids|
        invariant 0 <= j <= |ids|
        invariant forall b :: 0 <= b < j ==> mask.pruned[i, b] == (old(mask.pruned[i, b]) || PrunesEdge(ids, i, b))
        invariant forall a, b :: 0 <= a < |ids| && 0 <= b < |ids| && (a != i || b >= j) ==> mask.pruned[a, b] == old(mask.pruned[a, b])
      {
        if ids[i] < mat.Length0 && ids[j] < mat.Length0 {
          var dist := Dist(i, j);
          if dist > mat[ids[i], ids[j]] {
            mask.SetIsPruned(i, j, true);
          }
        }
        j := j + 1;
      }
    }

    /** Prunes every candidate edge (i, j) of a sentence with tag ids `ids` that PrunesEdge selects. */
    method AnnotateRows(mask: DepEdgeMask, ids: seq<nat>)
      requires mat != null && mat.Length0 == mat.Length1
      requires mask.Valid() && mask.n == |ids|
      modifies mask.pruned
      ensures forall a, b :: 0 <= a < |ids| && 0 <= b < |ids| ==> mask.pruned[a, b] == (old(mask.pruned[a, b]) || PrunesEdge(ids, a, b))
    {
      var i := 0;
      while i < |ids|
        invariant 0 <= i <= |ids|
        invariant forall a, b :: 0 <= a < i && 0 <= b < |ids| ==> mask.pruned[a, b] == (old(mask.pruned[a, b]) || PrunesEdge(ids, a, b))
        invariant forall a, b :: i <= a < |ids| && 0 <= b < |ids| ==> mask.pruned[a, b] == old(mask.pruned[a, b])
      {
        AnnotateRow(mask, ids, i);
        i := i + 1;
      }
    }

    /**
     * The mask of `sent` prunes edge (i, j) exactly when it did before
     * (`was`) or PrunesEdge selects it for tag ids `ids`.
     */
    ghost predicate PrunedAs(sent: AnnoSentence, was: seq<seq<bool>>, ids: seq<nat>)
      reads this`mat, mat, sent, MaskArray(sent)
      requires mat != null && mat.Length0 == mat.Length1 && MaskFits(sent)
      requires |ids| == |sent.posTags| && |was| == |ids| && forall i :: 0 <= i < |was| ==> |was[i]| == |ids|
    {
      && sent.mask != null
      && forall i, j :: 0 <= i < |ids| && 0 <= j < |ids| ==> sent.mask.pruned[i, j] == (was[i][j] || PrunesEdge(ids, i, j))
    }

    /**
     * Sentence `sent` has been annotated: its tags are known, it has a mask
     * that fits it (the mask `oldMask` it had, if any) and that mask prunes
     * what `was` pruned plus what PrunesEdge selects under the ids `known`
     * gives its tags.
     */
    ghost predicate Annotated(sent: AnnoSentence, oldMask: DepEdgeMask?, was: seq<seq<bool>>, known: seq<string>)
      reads this`mat, mat, sent, MaskArray(sent)
    {
      && mat != null && mat.Length0 == mat.Length1 && MaskFits(sent) && sent.mask != null
      && (oldMask != null ==> sent.mask == oldMask)
      && (forall t :: t in sent.posTags ==> t in known)
      && |was| == |sent.posTags| && (forall i :: 0 <= i < |was| ==> |was[i]| == |was|)
      && PrunedAs(sent, was, TagIds(known, sent.posTags))
    }

    /**
     * Annotates one sentence: gives it an all-kept mask if it has none, looks
     * its tags up (adding new ones to the alphabet) and prunes on top of what
     * the mask already prunes. `oldMask` and `was` name the mask the sentence
     * has on entry and what that mask prunes.
     */
    method AnnotateSentence(sent: AnnoSentence, ghost oldMask: DepEdgeMask?, ghost was: seq<seq<bool>>)
      requires Valid() && mat != null && Snapshot(sent, oldMask, was)
      modifies this`alphabet, sent, MaskArray(sent)
      ensures Valid() && mat == old(mat)
      ensures alphabet == Grow(old(alphabet), sent.posTags)
      ensures Annotated(sent, oldMask, was, alphabet)
      ensures oldMask == null ==> fresh(sent.mask.pruned)
    {
      var n := |sent.posTags|;
      var mask := sent.mask;
      if mask == null {
        mask := new DepEdgeMask(n, true);
        sent.mask := mask;
      }
      assert forall i, j :: 0 <= i < n && 0 <= j < n ==> mask.pruned[i, j] == was[i][j];
      var ids := LabelIds(sent.posTags);
      GrowExtends(old(alphabet), sent.posTags);
      forall i | 0 <= i < |ids|
        ensures IndexOf(alphabet, sent.posTags[i]) == ids[i]
      {
        IndexOfDistinct(alphabet, ids[i]);
      }
      assert ids == TagIds(alphabet, sent.posTags);
      AnnotateRows(mask, ids);
    }

    /**
     * Sentence k has been annotated under `known`; a mask it was given is
     * none of the masks the sentences came with.
     */
    ghost predicate Done(sents: seq<AnnoSentence>, masks: seq<DepEdgeMask?>, was: seq<seq<seq<bool>>>, k: nat, known: seq<string>)
      reads this`mat, mat, sents, MaskArrays(sents)
      requires k < |sents| && |masks| == |sents| && |was| == |sents|
    {
      && Annotated(sents[k], masks[k], was[k], known)
      && (masks[k] == null ==> sents[k].mask.pruned !in Arrays(masks))
    }

    /** The first s sentences are Done under the alphabet; the others still hold their entry masks. */
    ghost predicate Progress(sents: seq<AnnoSentence>, masks: seq<DepEdgeMask?>, was: seq<seq<seq<bool>>>, s: nat)
      reads this`alphabet, this`mat, mat, sents, MaskArrays(sents)
    {
      && |masks| == |sents| && |was| == |sents| && s <= |sents|
      && (forall k :: s <= k < |sents| ==> Snapshot(sents[k], masks[k], was[k]))
      && (forall k :: 0 <= k < s ==> Done(sents, masks, was, k, alphabet))
    }

    /**
     * Prunes the candidate edges of every sentence, in order. `masks` and
     * `was` name the mask each sentence has on entry and what it prunes.
     * Fails, changing nothing, when the table has not been trained. Otherwise
     * the alphabet grows by every new tag and every sentence is Annotated.
     */
    method Annotate(sents: seq<AnnoSentence>, ghost masks: seq<DepEdgeMask?>, ghost was: seq<seq<seq<bool>>>)
      returns (r: Outcome<string>)
      requires Valid() && Apart(sents, masks) && Progress(sents, masks, was, 0)
      modifies this`alphabet, sents, Arrays(masks)
      ensures Valid() && mat == old(mat)
      ensures r.Fail? <==> mat == null
      ensures r.Fail? ==> r.error == "The train() method must be called before annotate()" && alphabet == old(alphabet)
      ensures r.Fail? ==> Progress(sents, masks, was, 0)
      ensures r.Pass? ==> alphabet == Grow(old(alphabet), AllTags(sents))
      ensures r.Pass? ==> forall k :: 0 <= k < |sents| ==> Annotated(sents[k], masks[k], was[k], alphabet)
    {
      if mat == null {
        return Fail("The train() method must be called before annotate()");
      }
      var s := 0;
      while s < |sents|
        invariant Valid() && mat == old(mat) && Progress(sents, masks, was, s)
        invariant alphabet == Grow(old(alphabet), AllTags(sents[..s]))
      {
        assert sents[..s + 1][..s] == sents[..s];
        GrowAppend(old(alphabet), AllTags(sents[..s]), sents[s].posTags);
        AnnotateNext(sents, masks, was, s);
        s := s + 1;
      }
      assert sents[..s] == sents;
      forall k | 0 <= k < |sents|
        ensures Annotated(sents[k], masks[k], was[k], alphabet)
      {
        assert Done(sents, masks, was, k, alphabet);
      }
      r := Pass;
    }

    /** Annotates sentence s, the ones before it being Done. */
    method AnnotateNext(sents: seq<AnnoSentence>, ghost masks: seq<DepEdgeMask?>, ghost was: seq<seq<seq<bool>>>, s: nat)
      requires Valid() && mat != null && Apart(sents, masks) && Progress(sents, masks, was, s) && s < |sents|
      modifies this`alphabet, sents[s], Arrays(masks)
      ensures Valid() && mat == old(mat) && Progress(sents, masks, was, s + 1)
      ensures alphabet == Grow(old(alphabet), sents[s].posTags)
    {
      var sent := sents[s];
      ghost var before := alphabet;
      label L:
      AnnotateSentence(sent, masks[s], was[s]);
      GrowExtends(before, sent.posTags);
      forall k | s < k < |sents|
        ensures Snapshot(sents[k], masks[k], was[k])
      {
        assert old@L(Snapshot(sents[k], masks[k], was[k]));
        assert sents[k] != sent;
      }
      forall k | 0 <= k < s
        ensures Done(sents, masks, was, k, alphabet)
      {
        assert old@L(Done(sents, masks, was, k, before));
        assert sents[k] != sent;
        assert Annotated(sents[k], masks[k], was[k], before);
        AnnotatedGrows(sents[k], masks[k], was[k], before, alphabet);
      }
    }

    /**
     * Annotation never prunes the edge from a token to itself: its distance 0
     * is within every entry of the table. The self-edge stays as it was, so
     * it is kept when the sentence had no mask.
     */
    lemma SelfEdgeKept(sent: AnnoSentence, oldMask: DepEdgeMask?, was: seq<seq<bool>>, known: seq<string>, i: nat)
      requires Valid() && Annotated(sent, oldMask, was, known) && i < |sent.posTags|
      requires oldMask == null ==> was == PrunedValues(null, |sent.posTags|)
      ensures !PrunesEdge(TagIds(known, sent.posTags), i, i)
      ensures sent.mask.pruned[i, i] == was[i][i]
      ensures oldMask == null ==> !sent.mask.pruned[i, i]
    {
      var ids := TagIds(known, sent.posTags);
      if ids[i] < mat.Length0 {
        assert mat[ids[i], ids[i]] >= 0;
      }
    }

    /** Annotated stays true as the alphabet grows: known tags keep their ids. */
    lemma AnnotatedGrows(sent: AnnoSentence, oldMask: DepEdgeMask?, was: seq<seq<bool>>, known: seq<string>, known': seq<string>)
      requires Annotated(sent, oldMask, was, known) && known <= known'
      ensures Annotated(sent, oldMask, was, known')
    {
      TagIdsPrefix(known, known', sent.posTags);
    }
  }
}
