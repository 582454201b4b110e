/** Reciprocal rank fusion (services/retrieval/fusion.py), over the reals. */
module Fusion {
  import opened Common
  import opened KeyOrder
  import opened Sorting

  /** A retrieval result: its identifier as text, when it has one, and the rest of its payload. */
  datatype Item = Item(id: Option<string>, payload: string)

  datatype Fused = Fused(id: string, item: Item, score: real)

  datatype FusionError = KNotPositive | MissingKey

  function Share(k: int, rank: nat): real
    requires 0 < k
  {
    1.0 / (k + rank) as real
  }

  /** What one list gives an identifier: a share for every position it is at, counted from 1. */
  function ListScore(list: seq<Item>, id: string, k: int): real
    requires 0 < k
  {
    if list == [] then 0.0
    else ListScore(list[..|list| - 1], id, k) + if list[|list| - 1].id == Some(id) then Share(k, |list|) else 0.0
  }

  /** The declarative score: the sum over all lists. */
  function Score(lists: seq<seq<Item>>, id: string, k: int): real
    requires 0 < k
  {
    if lists == [] then 0.0 else Score(lists[..|lists| - 1], id, k) + ListScore(lists[|lists| - 1], id, k)
  }

  function FirstInList(list: seq<Item>, id: string): Option<Item> {
    if list == [] then None
    else
      var earlier := FirstInList(list[..|list| - 1], id);
      if earlier.Some? then earlier else if list[|list| - 1].id == Some(id) then Some(list[|list| - 1]) else None
  }

  /** The first result with the identifier, list after list. */
  function First(lists: seq<seq<Item>>, id: string): Option<Item> {
    if lists == [] then None
    else
      var earlier := First(lists[..|lists| - 1], id);
      if earlier.Some? then earlier else FirstInList(lists[|lists| - 1], id)
  }

  ghost predicate HasMissing(list: seq<Item>) {
    exists j :: 0 <= j < |list| && list[j].id.None?
  }

  ghost predicate AnyMissing(lists: seq<seq<Item>>) {
    exists i :: 0 <= i < |lists| && HasMissing(lists[i])
  }

  /** The sort key (-score, id). */
  predicate Before(a: Fused, b: Fused) {
    a.score > b.score || (a.score == b.score && Less(a.id, b.id))
  }

  /** What the fused list is: best first, every identifier of the union once, each with its declared
      score and the payload it first came with. */
  ghost predicate IsFusion(fused: seq<Fused>, lists: seq<seq<Item>>, k: int)
    requires 0 < k
  {
    && SortedBy(fused, Before)
    && (forall i :: 0 <= i < |fused| ==> IsEntry(fused[i], lists, k))
    && (forall id {:trigger First(lists, id)} :: First(lists, id).Some? ==>
            exists i :: 0 <= i < |fused| && fused[i].id == id)
  }

  ghost predicate IsEntry(f: Fused, lists: seq<seq<Item>>, k: int)
    requires 0 < k
  {
    f.score == Score(lists, f.id, k) && First(lists, f.id) == Some(f.item)
  }

  // ---------------------------------------------------------------- the accumulating loops

  /** The dictionaries: scores in insertion order, payloads under the same keys. */
  datatype Tally = Tally(order: seq<string>, scores: map<string, real>, payloads: map<string, Item>)

  /** What the dictionaries hold for an identifier after the given lists and part of the next. */
  ghost predicate Counts(t: Tally, lists: seq<seq<Item>>, part: seq<Item>, id: string, k: int)
    requires 0 < k
  {
    var first := if First(lists, id).Some? then First(lists, id) else FirstInList(part, id);
    var score := Score(lists, id, k) + ListScore(part, id, k);
    && (id in t.scores <==> first.Some?) && (id in t.payloads <==> first.Some?)
    && (if id in t.scores && id in t.payloads
        then t.scores[id] == score && Some(t.payloads[id]) == first
        else score == 0.0)
  }

  ghost predicate Tallied(t: Tally, lists: seq<seq<Item>>, part: seq<Item>, k: int)
    requires 0 < k
  {
    && Distinct(t.order) && KeySet(t.order) == t.scores.Keys
    && (forall id {:trigger Counts(t, lists, part, id, k)} :: Counts(t, lists, part, id, k))
  }

  function AddItem(t: Tally, item: Item, id: string, share: real): Tally {
    Tally(
      if id in t.scores then t.order else t.order + [id],
      t.scores[id := (if id in t.scores then t.scores[id] else 0.0) + share],
      if id in t.payloads then t.payloads else t.payloads[id := item])
  }

  lemma AddItemCounts(t: Tally, lists: seq<seq<Item>>, part: seq<Item>, item: Item, id: string, k: int, other: string)
    requires 0 < k && Counts(t, lists, part, id, k) && Counts(t, lists, part, other, k) && item.id == Some(id)
    ensures Counts(AddItem(t, item, id, Share(k, |part| + 1)), lists, part + [item], other, k)
  {
    assert (part + [item])[..|part|] == part;
  }

  lemma AddItemKeys(t: Tally, item: Item, id: string, share: real)
    requires Distinct(t.order) && KeySet(t.order) == t.scores.Keys
    ensures var t' := AddItem(t, item, id, share); Distinct(t'.order) && KeySet(t'.order) == t'.scores.Keys
  {
    KeysAppend(t.order, id);
    assert AddItem(t, item, id, share).scores.Keys == t.scores.Keys + {id};
    assert id in t.scores ==> t.scores.Keys + {id} == t.scores.Keys;
  }

  lemma AddItemTallied(t: Tally, lists: seq<seq<Item>>, part: seq<Item>, item: Item, id: string, k: int)
    requires 0 < k && Tallied(t, lists, part, k) && item.id == Some(id)
    ensures Tallied(AddItem(t, item, id, Share(k, |part| + 1)), lists, part + [item], k)
  {
    var t', part' := AddItem(t, item, id, Share(k, |part| + 1)), part + [item];
    AddItemKeys(t, item, id, Share(k, |part| + 1));
    assert Counts(t, lists, part, id, k);
    forall other ensures Counts(t', lists, part', other, k) {
      assert Counts(t, lists, part, other, k);
      AddItemCounts(t, lists, part, item, id, k, other);
    }
  }

  method AddList(t: Tally, ghost lists: seq<seq<Item>>, list: seq<Item>, k: int) returns (r: Result<Tally, FusionError>)
    requires 0 < k && Tallied(t, lists, [], k)
    ensures r.Err? <==> HasMissing(list)
    ensures r.Err? ==> r.error == MissingKey
    ensures r.Ok? ==> Tallied(r.value, lists + [list], [], k)
  {
    var t' := t;
    ghost var part: seq<Item> := [];
    for j := 0 to |list|
      invariant part == list[..j] && Tallied(t', lists, part, k)
      invariant !HasMissing(part)
    {
      var item := list[j];
      if item.id.None? {
        return Err(MissingKey);
      }
      AddItemTallied(t', lists, part, item, item.id.value, k);
      t' := AddItem(t', item, item.id.value, Share(k, j + 1));
      part := part + [item];
    }
    assert part == list;
    ListEnds(t', lists, list, k);
    return Ok(t');
  }

  lemma ListEnds(t: Tally, lists: seq<seq<Item>>, list: seq<Item>, k: int)
    requires 0 < k && Tallied(t, lists, list, k)
    ensures Tallied(t, lists + [list], [], k)
  {
    assert (lists + [list])[..|lists|] == lists;
    forall id ensures Counts(t, lists + [list], [], id, k) {
      assert Counts(t, lists, list, id, k);
    }
  }

  method ReciprocalRankFusion(lists: seq<seq<Item>>, k: int) returns (r: Result<seq<Fused>, FusionError>)
    ensures r == Err(KNotPositive) <==> k <= 0
    ensures r == Err(MissingKey) <==> 0 < k && AnyMissing(lists)
    ensures r.Ok? ==> IsFusion(r.value, lists, k)
    ensures r.Ok? ==> forall i, j :: 0 <= i < j < |r.value| ==>
              || r.value[i].score > r.value[j].score
              || (r.value[i].score == r.value[j].score && Less(r.value[i].id, r.value[j].id))
  {
    if k <= 0 {
      return Err(KNotPositive);
    }
    var t := Tally([], map[], map[]);
    for i := 0 to |lists|
      invariant Tallied(t, lists[..i], [], k)
      invariant forall j :: 0 <= j < i ==> !HasMissing(lists[j])
    {
      var added := AddList(t, lists[..i], lists[i], k);
      if added.Err? {
        return Err(MissingKey);
      }
      assert lists[..i + 1] == lists[..i] + [lists[i]];
      t := added.value;
    }
    assert lists[..|lists|] == lists;
    TallyHasEntries(t, lists, k);
    EntriesAreFusion(t, lists, k);
    return Ok(StableSort(Entries(t, t.order), Before));
  }

  ghost predicate HasEntries(t: Tally, ids: seq<string>) {
    KeySet(ids) <= t.scores.Keys && KeySet(ids) <= t.payloads.Keys
  }

  lemma TallyHasEntries(t: Tally, lists: seq<seq<Item>>, k: int)
    requires 0 < k && Tallied(t, lists, [], k)
    ensures HasEntries(t, t.order)
  {
    forall id | id in t.scores ensures id in t.payloads { assert Counts(t, lists, [], id, k); }
  }

  /** One merged payload for each scored identifier. */
  function Entries(t: Tally, ids: seq<string>): seq<Fused>
    requires HasEntries(t, ids)
  {
    if ids == [] then []
    else
      KeysInit(ids);
      var id := ids[|ids| - 1];
      Entries(t, ids[..|ids| - 1]) + [Fused(id, t.payloads[id], t.scores[id])]
  }

  lemma {:induction false} EntriesHold(t: Tally, ids: seq<string>, lists: seq<seq<Item>>, k: int)
    requires 0 < k && Tallied(t, lists, [], k) && HasEntries(t, ids)
    ensures forall f :: f in Entries(t, ids) ==> IsEntry(f, lists, k) && f.id in KeySet(ids)
    ensures forall id :: id in KeySet(ids) ==> exists i :: 0 <= i < |Entries(t, ids)| && Entries(t, ids)[i].id == id
  {
    if ids != [] {
      var init, id := ids[..|ids| - 1], ids[|ids| - 1];
      KeysInit(ids);
      EntriesHold(t, init, lists, k);
      assert Counts(t, lists, [], id, k);
      var all := Entries(t, ids);
      assert all[|all| - 1].id == id;
      forall other | other in KeySet(init) ensures exists i :: 0 <= i < |all| && all[i].id == other {
        var i :| 0 <= i < |Entries(t, init)| && Entries(t, init)[i].id == other;
        assert all[i].id == other;
      }
    }
  }

  lemma {:induction false} EntriesSorted(t: Tally, ids: seq<string>, lists: seq<seq<Item>>, k: int)
    requires 0 < k && Tallied(t, lists, [], k) && HasEntries(t, ids) && Distinct(ids)
    ensures SortedBy(StableSort(Entries(t, ids), Before), Before)
  {
    if ids != [] {
      var init, id := ids[..|ids| - 1], ids[|ids| - 1];
      KeysInit(ids);
      var rest, sorted := Entries(t, init), StableSort(Entries(t, init), Before);
      var entry := Fused(id, t.payloads[id], t.scores[id]);
      EntriesSorted(t, init, lists, k);
      EntriesHold(t, init, lists, k);
      SortKeeps(rest, Before);
      BeforeIsAnOrder();
      forall i | 0 <= i < |sorted| ensures if Before(entry, sorted[i]) then true else Before(sorted[i], entry) {
        assert sorted[i] in multiset(sorted);
        assert sorted[i] in rest;
        LessTotal(entry.id, sorted[i].id);
      }
      InsertSorted(entry, sorted, Before, Before);
      assert (rest + [entry])[..|rest|] == rest;
    }
  }

  lemma EntriesAreFusion(t: Tally, lists: seq<seq<Item>>, k: int)
    requires 0 < k && Tallied(t, lists, [], k) && HasEntries(t, t.order)
    ensures IsFusion(StableSort(Entries(t, t.order), Before), lists, k)
  {
    var entries, fused := Entries(t, t.order), StableSort(Entries(t, t.order), Before);
    EntriesSorted(t, t.order, lists, k);
    EntriesHold(t, t.order, lists, k);
    SortKeeps(entries, Before);
    forall i | 0 <= i < |fused| ensures IsEntry(fused[i], lists, k) {
      assert fused[i] in multiset(fused);
      assert fused[i] in entries;
    }
    forall id {:trigger First(lists, id)} | First(lists, id).Some?
      ensures exists i :: 0 <= i < |fused| && fused[i].id == id
    {
      assert Counts(t, lists, [], id, k);
      var i :| 0 <= i < |entries| && entries[i].id == id;
      assert entries[i] in multiset(entries);
      assert entries[i] in fused;
    }
  }

  lemma BeforeIsAnOrder()
    ensures Transitive(Before) && Asymmetric(Before)
  {
    forall x: Fused, y: Fused, z: Fused | Before(x, y) && Before(y, z) ensures Before(x, z) {
      if x.score == y.score == z.score { LessTransitive(x.id, y.id, z.id); }
    }
    forall x: Fused, y: Fused | Before(x, y) ensures !Before(y, x) {
      LessTotal(x.id, y.id);
    }
  }

  // ---------------------------------------------------------------- what fusing means

  /** Each identifier of the union comes out exactly once. */
  lemma EachIdentifierOnce(fused: seq<Fused>, lists: seq<seq<Item>>, k: int)
    requires 0 < k && IsFusion(fused, lists, k)
    ensures forall i, j :: 0 <= i < j < |fused| ==> fused[i].id != fused[j].id
    ensures forall id :: (exists i :: 0 <= i < |fused| && fused[i].id == id) <==> First(lists, id).Some?
  {
    forall i, j | 0 <= i < j < |fused| ensures fused[i].id != fused[j].id {
      assert Before(fused[i], fused[j]);
      assert IsEntry(fused[i], lists, k) && IsEntry(fused[j], lists, k);
      LessTotal(fused[i].id, fused[j].id);
    }
    forall id | exists i :: 0 <= i < |fused| && fused[i].id == id ensures First(lists, id).Some? {
      var i :| 0 <= i < |fused| && fused[i].id == id;
      assert IsEntry(fused[i], lists, k);
    }
  }

  function Drop<T>(s: seq<T>, i: nat): seq<T>
    requires i < |s|
  {
    s[..i] + s[i + 1..]
  }

  lemma DropMultiset<T>(s: seq<T>, i: nat)
    requires i < |s|
    ensures multiset(s) == multiset(Drop(s, i)) + multiset{s[i]}
  {
    assert s == s[..i] + ([s[i]] + s[i + 1..]);
  }

  lemma MultisetCancel<T>(a: multiset<T>, b: multiset<T>, x: T)
    requires a + multiset{x} == b + multiset{x}
    ensures a == b
  {
    assert a == (a + multiset{x}) - multiset{x};
    assert b == (b + multiset{x}) - multiset{x};
  }

  lemma {:induction false} ScoreDrop(lists: seq<seq<Item>>, i: nat, id: string, k: int)
    requires 0 < k && i < |lists|
    ensures Score(lists, id, k) == Score(Drop(lists, i), id, k) + ListScore(lists[i], id, k)
    ensures First(lists, id).Some? <==> First(Drop(lists, i), id).Some? || FirstInList(lists[i], id).Some?
  {
    var init := lists[..|lists| - 1];
    if i == |lists| - 1 {
      assert Drop(lists, i) == init;
    } else {
      ScoreDrop(init, i, id, k);
      assert Drop(lists, i)[..|lists| - 2] == Drop(init, i);
    }
  }

  /** The score of an identifier, and whether it occurs, do not depend on the order of the lists. */
  lemma {:induction false} ScoreIgnoresListOrder(a: seq<seq<Item>>, b: seq<seq<Item>>, id: string, k: int)
    requires 0 < k && multiset(a) == multiset(b)
    ensures Score(a, id, k) == Score(b, id, k)
    ensures First(a, id).Some? <==> First(b, id).Some?
  {
    if a == [] {
      assert |multiset(b)| == 0;
    } else {
      var init, last := a[..|a| - 1], a[|a| - 1];
      assert a == init + [last];
      assert last in multiset(b);
      var i :| 0 <= i < |b| && b[i] == last;
      DropMultiset(b, i);
      MultisetCancel(multiset(init), multiset(Drop(b, i)), last);
      ScoreDrop(b, i, id, k);
      ScoreIgnoresListOrder(init, Drop(b, i), id, k);
    }
  }

  /** A fused entry without the payload. */
  function Key(f: Fused): (string, real) {
    (f.id, f.score)
  }

  function Keys(fused: seq<Fused>): (keys: seq<(string, real)>)
    ensures |keys| == |fused|
  {
    seq(|fused|, i requires 0 <= i < |fused| => Key(fused[i]))
  }

  predicate KeyBefore(a: (string, real), b: (string, real)) {
    a.1 > b.1 || (a.1 == b.1 && Less(a.0, b.0))
  }

  lemma KeyIsEntry(fused: seq<Fused>, lists: seq<seq<Item>>, k: int, key: (string, real))
    requires 0 < k && IsFusion(fused, lists, k)
    ensures key in Keys(fused) <==> First(lists, key.0).Some? && key.1 == Score(lists, key.0, k)
  {
    if key in Keys(fused) {
      var i :| 0 <= i < |fused| && Keys(fused)[i] == key;
      assert IsEntry(fused[i], lists, k);
    }
    if First(lists, key.0).Some? && key.1 == Score(lists, key.0, k) {
      var i :| 0 <= i < |fused| && fused[i].id == key.0;
      assert IsEntry(fused[i], lists, k);
      assert Keys(fused)[i] == key;
    }
  }

  /** The order of the lists does not matter: the same identifiers, in the same order, with the same
      scores. (Only which list's payload survives does depend on it.) */
  lemma ListOrderDoesNotMatter(a: seq<Fused>, b: seq<Fused>, lists: seq<seq<Item>>, lists': seq<seq<Item>>, k: int)
    requires 0 < k && multiset(lists) == multiset(lists')
    requires IsFusion(a, lists, k) && IsFusion(b, lists', k)
    ensures Keys(a) == Keys(b)
  {
    forall key ensures key in Keys(a) <==> key in Keys(b) {
      KeyIsEntry(a, lists, k, key);
      KeyIsEntry(b, lists', k, key);
      ScoreIgnoresListOrder(lists, lists', key.0, k);
    }
    KeysSorted(a);
    KeysSorted(b);
    SortedUnique(Keys(a), Keys(b), KeyBefore);
  }

  lemma KeysSorted(fused: seq<Fused>)
    requires SortedBy(fused, Before)
    ensures SortedBy(Keys(fused), KeyBefore) && Asymmetric(KeyBefore)
  {
    forall i, j | 0 <= i < j < |fused| ensures KeyBefore(Keys(fused)[i], Keys(fused)[j]) {
      assert Before(fused[i], fused[j]);
    }
    forall x, y | KeyBefore(x, y) ensures !KeyBefore(y, x) {
      LessTotal(x.0, y.0);
    }
  }

  // ---------------------------------------------------------------- scores and payloads, read off the lists

  /** The sum of 1 / (k + rank) over the lists that rank the identifier; ranks count from 1, 0 is absence. */
  function Reciprocals(ranks: seq<nat>, k: int): real
    requires 0 < k
  {
    if ranks == [] then 0.0
    else Reciprocals(ranks[1..], k) + if ranks[0] == 0 then 0.0 else 1.0 / (k + ranks[0]) as real
  }

  ghost predicate AreRanks(ranks: seq<nat>, lists: seq<seq<Item>>, id: string) {
    && |ranks| == |lists|
    && forall i :: 0 <= i < |lists| ==>
         if ranks[i] == 0 then Absent(lists[i], id) else RankedAt(lists[i], id, ranks[i] - 1)
  }

  lemma {:induction false} ReciprocalsAppend(ranks: seq<nat>, r: nat, k: int)
    requires 0 < k
    ensures Reciprocals(ranks + [r], k) == Reciprocals(ranks, k) + if r == 0 then 0.0 else 1.0 / (k + r) as real
  {
    if ranks != [] {
      assert (ranks + [r])[1..] == ranks[1..] + [r];
      ReciprocalsAppend(ranks[1..], r, k);
    } else {
      assert (ranks + [r])[1..] == [];
    }
  }

  lemma {:induction false} ScoreIsReciprocals(lists: seq<seq<Item>>, id: string, k: int, ranks: seq<nat>)
    requires 0 < k && AreRanks(ranks, lists, id)
    ensures Score(lists, id, k) == Reciprocals(ranks, k)
  {
    if lists != [] {
      var n := |lists| - 1;
      ScoreIsReciprocals(lists[..n], id, k, ranks[..n]);
      ReciprocalsAppend(ranks[..n], ranks[n], k);
      assert ranks[..n] + [ranks[n]] == ranks;
      if ranks[n] == 0 { AbsentScoresNothing(lists[n], id, k); } else { RankedScores(lists[n], id, ranks[n] - 1, k); }
    }
  }

  /** Every fused identifier that no list repeats has the sum of 1 / (k + rank) as its score. */
  lemma FusedScoreIsReciprocals(fused: seq<Fused>, lists: seq<seq<Item>>, k: int, i: nat, ranks: seq<nat>)
    requires 0 < k && IsFusion(fused, lists, k) && i < |fused| && AreRanks(ranks, lists, fused[i].id)
    ensures fused[i].score == Reciprocals(ranks, k)
  {
    assert IsEntry(fused[i], lists, k);
    ScoreIsReciprocals(lists, fused[i].id, k, ranks);
  }

  /** The item stands at a place of the lists with its identifier, and the identifier nowhere before it. */
  ghost predicate FirstAt(lists: seq<seq<Item>>, id: string, i: nat, j: nat, item: Item) {
    && i < |lists| && j < |lists[i]| && lists[i][j] == item && item.id == Some(id)
    && (forall h :: 0 <= h < i ==> Absent(lists[h], id))
    && Absent(lists[i][..j], id)
  }

  lemma {:induction false} FirstInListAt(list: seq<Item>, id: string) returns (j: nat)
    ensures FirstInList(list, id).None? ==> Absent(list, id)
    ensures FirstInList(list, id).Some? ==>
              j < |list| && list[j] == FirstInList(list, id).value && list[j].id == Some(id) && Absent(list[..j], id)
  {
    j := 0;
    if list != [] {
      var n := |list| - 1;
      j := FirstInListAt(list[..n], id);
      if FirstInList(list[..n], id).None? { j := n; } else { assert list[..n][..j] == list[..j]; }
    }
  }

  /** Each identifier keeps the payload of its first occurrence, list after list. */
  lemma {:induction false} PayloadComesFirst(lists: seq<seq<Item>>, id: string) returns (i: nat, j: nat)
    ensures First(lists, id).None? ==> forall h :: 0 <= h < |lists| ==> Absent(lists[h], id)
    ensures First(lists, id).Some? ==> FirstAt(lists, id, i, j, First(lists, id).value)
  {
    i, j := 0, 0;
    if lists != [] {
      var n := |lists| - 1;
      i, j := PayloadComesFirst(lists[..n], id);
      var inLast := FirstInListAt(lists[n], id);
      if First(lists[..n], id).None? { i, j := n, inLast; }
    }
  }

  /** So does every entry of the fused list. */
  lemma FusedPayloadComesFirst(fused: seq<Fused>, lists: seq<seq<Item>>, k: int, n: nat) returns (i: nat, j: nat)
    requires 0 < k && IsFusion(fused, lists, k) && n < |fused|
    ensures FirstAt(lists, fused[n].id, i, j, fused[n].item)
  {
    assert IsEntry(fused[n], lists, k);
    i, j := PayloadComesFirst(lists, fused[n].id);
  }

  // ---------------------------------------------------------------- dominance

  /** The list holds the identifier at position p and nowhere else. */
  ghost predicate RankedAt(list: seq<Item>, id: string, p: nat) {
    && p < |list| && list[p].id == Some(id)
    && (forall j :: 0 <= j < |list| && j != p ==> list[j].id != Some(id))
  }

  ghost predicate Absent(list: seq<Item>, id: string) {
    forall j :: 0 <= j < |list| ==> list[j].id != Some(id)
  }

  lemma {:induction false} AbsentScoresNothing(list: seq<Item>, id: string, k: int)
    requires 0 < k && Absent(list, id)
    ensures ListScore(list, id, k) == 0.0 && FirstInList(list, id).None?
  {
    if list != [] { AbsentScoresNothing(list[..|list| - 1], id, k); }
  }

  lemma {:induction false} RankedScores(list: seq<Item>, id: string, p: nat, k: int)
    requires 0 < k && RankedAt(list, id, p)
    ensures ListScore(list, id, k) == Share(k, p + 1)
  {
    var init := list[..|list| - 1];
    if p == |list| - 1 { AbsentScoresNothing(init, id, k); } else { RankedScores(init, id, p, k); }
  }

  lemma {:induction false} ListScoreNotNegative(list: seq<Item>, id: string, k: int)
    requires 0 < k
    ensures ListScore(list, id, k) >= 0.0
  {
    if list != [] {
      ListScoreNotNegative(list[..|list| - 1], id, k);
      assert Share(k, |list|) > 0.0;
    }
  }

  /** In this list d stands strictly before e, or e does not stand at all. */
  ghost predicate Ahead(list: seq<Item>, d: string, e: string) {
    Absent(list, e) || exists p: nat, q: nat :: p < q && RankedAt(list, d, p) && RankedAt(list, e, q)
  }

  lemma SharesFall(k: int, p: nat, q: nat)
    requires 0 < k && p < q
    ensures Share(k, p) > Share(k, q)
  {
    ReciprocalFalls((k + p) as real, (k + q) as real);
  }

  lemma MulLess(a: real, x: real, y: real)
    requires 0.0 < a && x < y
    ensures a * x < a * y
  {
  }

  lemma ReciprocalFalls(x: real, y: real)
    requires 0.0 < x < y
    ensures 1.0 / x > 1.0 / y
  {
    var a, b := 1.0 / x, 1.0 / y;
    MulLess(b, x, y);
    if a <= b {
      if a < b { MulLess(x, a, b); }
      assert false;
    }
  }

  lemma AheadScores(list: seq<Item>, d: string, e: string, k: int)
    requires 0 < k && Ahead(list, d, e)
    ensures ListScore(list, d, k) >= ListScore(list, e, k)
    ensures !Absent(list, e) ==> ListScore(list, d, k) > ListScore(list, e, k)
  {
    if Absent(list, e) {
      AbsentScoresNothing(list, e, k);
      ListScoreNotNegative(list, d, k);
    } else {
      var p: nat, q: nat :| p < q && RankedAt(list, d, p) && RankedAt(list, e, q);
      RankedScores(list, d, p, k);
      RankedScores(list, e, q, k);
      SharesFall(k, p + 1, q + 1);
    }
  }

  lemma {:induction false} AheadEverywhereScores(lists: seq<seq<Item>>, d: string, e: string, k: int)
    requires 0 < k && forall i :: 0 <= i < |lists| ==> Ahead(lists[i], d, e)
    ensures Score(lists, d, k) >= Score(lists, e, k)
    ensures First(lists, e).Some? ==> Score(lists, d, k) > Score(lists, e, k)
  {
    if lists != [] {
      var last := lists[|lists| - 1];
      AheadEverywhereScores(lists[..|lists| - 1], d, e, k);
      AheadScores(last, d, e, k);
      if Absent(last, e) { AbsentScoresNothing(last, e, k); }
    }
  }

  /** Dominance: what is strictly better ranked in every list that has e comes out before e. */
  lemma DominanceIsKept(fused: seq<Fused>, lists: seq<seq<Item>>, k: int, i: nat, j: nat)
    requires 0 < k && IsFusion(fused, lists, k) && i < |fused| && j < |fused|
    requires forall l :: 0 <= l < |lists| ==> Ahead(lists[l], fused[i].id, fused[j].id)
    ensures i < j
  {
    EarlierScoresMore(fused, i, j);
    assert IsEntry(fused[i], lists, k) && IsEntry(fused[j], lists, k);
    AheadEverywhereScores(lists, fused[i].id, fused[j].id, k);
  }

  lemma EarlierScoresMore(fused: seq<Fused>, i: nat, j: nat)
    requires SortedBy(fused, Before) && i < |fused| && j < |fused|
    ensures j <= i ==> fused[i].score <= fused[j].score
  {
    if j < i { assert Before(fused[j], fused[i]); }
  }
}
