/**
 * Deck generation (constants.ts:49-80): one card per unit of the count
 * table, each with a suit and a rank drawn from the oracle, followed by an
 * in-place Fisher–Yates shuffle.  The three streams of draws (suits, ranks,
 * shuffle indices) are separate parameters.
 */
module Deck {
  import opened Types
  import opened Catalog
  import opened Shuffle
  import opened State

  /** `['spade', 'heart', 'club', 'diamond'][Math.floor(r * 4)]` (constants.ts:67). */
  function DeckSuit(r: real): Suit
    requires IsRandom(r)
  {
    [Spade, Heart, Club, Diamond][RandomBelow(r, 4)]
  }

  /** `Math.floor(r * 13) + 1` (constants.ts:68). */
  function Rank(r: real): (n: int)
    requires IsRandom(r)
    ensures 1 <= n <= 13
  {
    RandomBelow(r, 13) + 1
  }

  /** The `i`-th card pushed for definition `def`: the definition's fields plus id, suit and rank. */
  function NewCard(def: CardDef, i: nat, suitDraw: real, rankDraw: real): PlayingCard
    requires IsRandom(suitDraw) && IsRandom(rankDraw)
  {
    PlayingCard(def, Generated(def.id, i), DeckSuit(suitDraw), Rank(rankDraw))
  }

  /** The first `count` cards pushed for `def`, the first of them being the `base`-th card of the deck. */
  function Block(def: CardDef, count: nat, suits: seq<real>, ranks: seq<real>, base: nat): (r: seq<PlayingCard>)
    requires AllRandom(suits) && AllRandom(ranks)
    requires base + count <= |suits| && base + count <= |ranks|
    ensures |r| == count
  {
    seq(count, i requires 0 <= i < count => NewCard(def, i, suits[base + i], ranks[base + i]))
  }

  /** The unshuffled deck after the first `e` entries of the count table. */
  function Built(table: seq<(string, nat)>, lib: seq<CardDef>, e: nat, suits: seq<real>, ranks: seq<real>): (r: seq<PlayingCard>)
    requires e <= |table| && AllRandom(suits) && AllRandom(ranks)
    requires Total(table, e) <= |suits| && Total(table, e) <= |ranks|
    ensures |r| <= Total(table, e)
  {
    if e == 0 then []
    else
      var prev := Built(table, lib, e - 1, suits, ranks);
      match FindDef(lib, table[e - 1].0)
      case None => prev
      case Some(def) => prev + Block(def, table[e - 1].1, suits, ranks, |prev|)
  }

  /** The number of cards of a given definition id. */
  function CountId(s: seq<PlayingCard>, id: string): nat
  {
    if s == [] then 0 else (if s[0].def.id == id then 1 else 0) + CountId(s[1..], id)
  }

  lemma {:induction false} CountIdAppend(s: seq<PlayingCard>, t: seq<PlayingCard>, id: string)
    ensures CountId(s + t, id) == CountId(s, id) + CountId(t, id)
  {
    if s == [] {
      assert s + t == t;
    } else {
      assert (s + t)[0] == s[0];
      assert (s + t)[1..] == s[1..] + t;
      CountIdAppend(s[1..], t, id);
    }
  }

  /** Two sequences with the same multiset of cards hold the same number of cards of each id. */
  lemma {:induction false} CountIdPermutation(s: seq<PlayingCard>, t: seq<PlayingCard>, id: string)
    requires multiset(s) == multiset(t)
    ensures CountId(s, id) == CountId(t, id)
    decreases |s|
  {
    if s == [] {
      assert |t| == |multiset(t)| == 0;
    } else {
      var x := s[0];
      assert s == [x] + s[1..];
      assert x in multiset(t) by {
        assert x in multiset(s);
      }
      var k :| 0 <= k < |t| && t[k] == x;
      var rest := t[..k] + t[k + 1..];
      assert multiset(s[1..]) == multiset(rest) by {
        MultisetWithout(t, k);
        assert multiset(s) == multiset([x]) + multiset(s[1..]);
      }
      CountIdPermutation(s[1..], rest, id);
      CountIdWithout(t, k, id);
    }
  }

  /** Taking out the `k`-th card takes one copy of it out of the multiset. */
  lemma MultisetWithout(t: seq<PlayingCard>, k: nat)
    requires k < |t|
    ensures multiset(t[..k] + t[k + 1..]) == multiset(t) - multiset{t[k]}
  {
    assert t == t[..k] + [t[k]] + t[k + 1..];
    assert multiset(t) == multiset(t[..k]) + multiset([t[k]]) + multiset(t[k + 1..]);
  }

  /** Taking out the `k`-th card lowers the count of its id by one and of the other ids by none. */
  lemma CountIdWithout(t: seq<PlayingCard>, k: nat, id: string)
    requires k < |t|
    ensures CountId(t, id) == CountId(t[..k] + t[k + 1..], id) + (if t[k].def.id == id then 1 else 0)
  {
    assert t == t[..k] + [t[k]] + t[k + 1..];
    CountIdAppend(t[..k] + [t[k]], t[k + 1..], id);
    CountIdAppend(t[..k], [t[k]], id);
    CountIdAppend(t[..k], t[k + 1..], id);
    assert CountId([t[k]], id) == if t[k].def.id == id then 1 else 0;
  }

  lemma {:induction false} CountIdBlock(def: CardDef, count: nat, suits: seq<real>, ranks: seq<real>, base: nat, id: string)
    requires AllRandom(suits) && AllRandom(ranks)
    requires base + count <= |suits| && base + count <= |ranks|
    ensures CountId(Block(def, count, suits, ranks, base), id) == if def.id == id then count else 0
    decreases count
  {
    if count > 0 {
      var b := Block(def, count, suits, ranks, base);
      var c := count - 1;
      assert b == Block(def, c, suits, ranks, base) + [b[c]];
      assert b[c] == NewCard(def, c, suits[base + c], ranks[base + c]);
      CountIdAppend(Block(def, c, suits, ranks, base), [b[c]], id);
      CountIdBlock(def, c, suits, ranks, base, id);
      assert CountId([b[c]], id) == CountId([], id) + if b[c].def.id == id then 1 else 0;
    }
  }

  lemma {:induction false} TotalMonotone(table: seq<(string, nat)>, e: nat, f: nat)
    requires e <= f <= |table|
    ensures Total(table, e) <= Total(table, f)
    decreases f - e
  {
    if e < f {
      TotalMonotone(table, e, f - 1);
    }
  }

  /** When every id is found, entry `e` contributes exactly its count of cards of its id. */
  lemma {:induction false} BuiltCounts(table: seq<(string, nat)>, lib: seq<CardDef>, e: nat, suits: seq<real>, ranks: seq<real>, id: string)
    requires e <= |table| && AllRandom(suits) && AllRandom(ranks)
    requires Total(table, e) <= |suits| && Total(table, e) <= |ranks|
    requires AllFound(table, lib)
    ensures |Built(table, lib, e, suits, ranks)| == Total(table, e)
    ensures CountId(Built(table, lib, e, suits, ranks), id) == CountFor(table, e, id)
  {
    if e > 0 {
      BuiltCounts(table, lib, e - 1, suits, ranks, id);
      var prev := Built(table, lib, e - 1, suits, ranks);
      var def := FindDef(lib, table[e - 1].0).value;
      CountIdAppend(prev, Block(def, table[e - 1].1, suits, ranks, |prev|), id);
      CountIdBlock(def, table[e - 1].1, suits, ranks, |prev|, id);
    }
  }

  /** Every pushed card carries its library definition and a rank in 1..13 (constants.ts:64-68). */
  lemma {:induction false} BuiltCardsWellFormed(table: seq<(string, nat)>, lib: seq<CardDef>, e: nat, suits: seq<real>, ranks: seq<real>)
    requires e <= |table| && AllRandom(suits) && AllRandom(ranks)
    requires Total(table, e) <= |suits| && Total(table, e) <= |ranks|
    ensures forall c :: c in Built(table, lib, e, suits, ranks) ==>
      FindDef(lib, c.def.id) == Some(c.def) && 1 <= c.number <= 13
  {
    if e > 0 {
      BuiltCardsWellFormed(table, lib, e - 1, suits, ranks);
      var prev := Built(table, lib, e - 1, suits, ranks);
      match FindDef(lib, table[e - 1].0)
      case None =>
      case Some(def) =>
        var b := Block(def, table[e - 1].1, suits, ranks, |prev|);
        forall c | c in b ensures FindDef(lib, c.def.id) == Some(c.def) && 1 <= c.number <= 13 {
          var i :| 0 <= i < |b| && b[i] == c;
          assert c == NewCard(def, i, suits[|prev| + i], ranks[|prev| + i]);
        }
    }
  }

  /** The ids that the first `e` entries name. */
  predicate KeyBefore(table: seq<(string, nat)>, e: nat, id: string)
    requires e <= |table|
  {
    exists k :: 0 <= k < e && table[k].0 == id
  }

  /** The `i`-th card of a block carries the instance id `<def.id>-<i>`. */
  lemma BlockIds(def: CardDef, count: nat, suits: seq<real>, ranks: seq<real>, base: nat)
    requires AllRandom(suits) && AllRandom(ranks)
    requires base + count <= |suits| && base + count <= |ranks|
    ensures forall i :: 0 <= i < count ==>
      Block(def, count, suits, ranks, base)[i].uniqueId == Generated(def.id, i)
  {
    forall i | 0 <= i < count
      ensures Block(def, count, suits, ranks, base)[i].uniqueId == Generated(def.id, i)
    {
      assert Block(def, count, suits, ranks, base)[i] == NewCard(def, i, suits[base + i], ranks[base + i]);
    }
  }

  /** Every card of the unshuffled deck carries a generated id naming one of the entries so far. */
  lemma {:induction false} BuiltIdsKeyed(table: seq<(string, nat)>, lib: seq<CardDef>, e: nat, suits: seq<real>, ranks: seq<real>)
    requires e <= |table| && AllRandom(suits) && AllRandom(ranks)
    requires Total(table, e) <= |suits| && Total(table, e) <= |ranks|
    ensures forall c :: c in Built(table, lib, e, suits, ranks) ==>
      c.uniqueId.Generated? && KeyBefore(table, e, c.uniqueId.defId)
  {
    if e > 0 {
      BuiltIdsKeyed(table, lib, e - 1, suits, ranks);
      var prev := Built(table, lib, e - 1, suits, ranks);
      forall c | c in prev ensures c.uniqueId.Generated? && KeyBefore(table, e, c.uniqueId.defId) {
        var k :| 0 <= k < e - 1 && table[k].0 == c.uniqueId.defId;
      }
      match FindDef(lib, table[e - 1].0)
      case None =>
      case Some(def) =>
        var b := Block(def, table[e - 1].1, suits, ranks, |prev|);
        BlockIds(def, table[e - 1].1, suits, ranks, |prev|);
        forall c | c in b ensures c.uniqueId.Generated? && KeyBefore(table, e, c.uniqueId.defId) {
          var i :| 0 <= i < |b| && b[i] == c;
          assert table[e - 1].0 == c.uniqueId.defId;
        }
    }
  }

  /** Distinct keys give every card of the unshuffled deck its own instance id. */
  lemma {:induction false} BuiltIdsDistinct(table: seq<(string, nat)>, lib: seq<CardDef>, e: nat, suits: seq<real>, ranks: seq<real>)
    requires e <= |table| && AllRandom(suits) && AllRandom(ranks)
    requires Total(table, e) <= |suits| && Total(table, e) <= |ranks|
    requires DistinctKeys(table)
    ensures forall i, j :: 0 <= i < j < |Built(table, lib, e, suits, ranks)| ==>
      Built(table, lib, e, suits, ranks)[i].uniqueId != Built(table, lib, e, suits, ranks)[j].uniqueId
  {
    if e > 0 {
      BuiltIdsDistinct(table, lib, e - 1, suits, ranks);
      BuiltIdsKeyed(table, lib, e - 1, suits, ranks);
      var prev := Built(table, lib, e - 1, suits, ranks);
      match FindDef(lib, table[e - 1].0)
      case None =>
      case Some(def) =>
        var b := Block(def, table[e - 1].1, suits, ranks, |prev|);
        BlockIds(def, table[e - 1].1, suits, ranks, |prev|);
        var r := prev + b;
        assert Built(table, lib, e, suits, ranks) == r;
        forall i, j | 0 <= i < j < |r| ensures r[i].uniqueId != r[j].uniqueId {
          if j >= |prev| && i < |prev| {
            assert r[i] == prev[i] && prev[i] in prev && r[j] == b[j - |prev|];
            NewKeyFresh(table, e, prev[i], b[j - |prev|]);
          } else if i >= |prev| {
            assert r[i] == b[i - |prev|] && r[j] == b[j - |prev|];
          } else {
            assert r[i] == prev[i] && r[j] == prev[j];
          }
        }
    }
  }

  /** A card keyed by an earlier entry never shares its id with one generated for entry `e - 1`. */
  lemma NewKeyFresh(table: seq<(string, nat)>, e: nat, c: PlayingCard, d: PlayingCard)
    requires 0 < e <= |table| && DistinctKeys(table)
    requires c.uniqueId.Generated? && KeyBefore(table, e - 1, c.uniqueId.defId)
    requires d.uniqueId.Generated? && d.uniqueId.defId == table[e - 1].0
    ensures c.uniqueId != d.uniqueId
  {
    var k :| 0 <= k < e - 1 && table[k].0 == c.uniqueId.defId;
    assert table[k].0 != table[e - 1].0;
  }

  /**
   * The unshuffled deck of a table whose ids are all found and distinct: one
   * card per unit of the table, each id its configured count, library fields
   * and pairwise distinct instance ids.
   */
  lemma BuiltFacts(table: seq<(string, nat)>, lib: seq<CardDef>, suits: seq<real>, ranks: seq<real>)
    requires AllRandom(suits) && AllRandom(ranks)
    requires Total(table, |table|) <= |suits| && Total(table, |table|) <= |ranks|
    requires AllFound(table, lib) && DistinctKeys(table)
    ensures |Built(table, lib, |table|, suits, ranks)| == Total(table, |table|)
    ensures forall k :: 0 <= k < |table| ==> CountId(Built(table, lib, |table|, suits, ranks), table[k].0) == table[k].1
    ensures forall c :: c in Built(table, lib, |table|, suits, ranks) ==>
      FindDef(lib, c.def.id) == Some(c.def) && 1 <= c.number <= 13
    ensures forall i, j :: 0 <= i < j < |Built(table, lib, |table|, suits, ranks)| ==>
      Built(table, lib, |table|, suits, ranks)[i].uniqueId != Built(table, lib, |table|, suits, ranks)[j].uniqueId
  {
    var u := Built(table, lib, |table|, suits, ranks);
    forall k | 0 <= k < |table| ensures CountId(u, table[k].0) == table[k].1 {
      BuiltCounts(table, lib, |table|, suits, ranks, table[k].0);
      CountForEntry(table, |table|, k);
    }
    if |table| > 0 {
      BuiltCounts(table, lib, |table|, suits, ranks, table[0].0);
    }
    BuiltCardsWellFormed(table, lib, |table|, suits, ranks);
    BuiltIdsDistinct(table, lib, |table|, suits, ranks);
  }

  /** The game's own table: 126 cards, every id found in the library, no id twice. */
  lemma StandardTable()
    ensures Total(COUNTS, |COUNTS|) == DECK_SIZE
    ensures AllFound(COUNTS, CARD_LIBRARY) && DistinctKeys(COUNTS)
  {
    CountsTotal();
    CountsAllFound();
    CountsDistinct();
  }

  /** The outer loop over the count table, pushing each found definition's copies. */
  method BuildDeck(table: seq<(string, nat)>, lib: seq<CardDef>, suits: seq<real>, ranks: seq<real>)
    returns (built: seq<PlayingCard>)
    requires AllRandom(suits) && AllRandom(ranks)
    requires Total(table, |table|) <= |suits| && Total(table, |table|) <= |ranks|
    ensures built == Built(table, lib, |table|, suits, ranks)
  {
    built := [];
    var e := 0;
    while e < |table|
      invariant 0 <= e <= |table|
      invariant Total(table, e) <= Total(table, |table|)
      invariant built == Built(table, lib, e, suits, ranks)
    {
      TotalMonotone(table, e + 1, |table|);
      assert Total(table, e + 1) == Total(table, e) + table[e].1;
      var def := FindDef(lib, table[e].0);
      if def.Some? {
        ghost var next := built + Block(def.value, table[e].1, suits, ranks, |built|);
        assert Built(table, lib, e + 1, suits, ranks) == next;
        built := PushCopies(built, def.value, table[e].1, suits, ranks);
      } else {
        assert Built(table, lib, e + 1, suits, ranks) == built;
      }
      e := e + 1;
    }
  }

  /** The inner `for (let i = 0; i < count; i++) deck.push(...)` loop. */
  method PushCopies(deck: seq<PlayingCard>, def: CardDef, count: nat, suits: seq<real>, ranks: seq<real>)
    returns (r: seq<PlayingCard>)
    requires AllRandom(suits) && AllRandom(ranks)
    requires |deck| + count <= |suits| && |deck| + count <= |ranks|
    ensures r == deck + Block(def, count, suits, ranks, |deck|)
  {
    r := deck;
    var i := 0;
    while i < count
      invariant 0 <= i <= count
      invariant r == deck + Block(def, i, suits, ranks, |deck|)
    {
      assert Block(def, i + 1, suits, ranks, |deck|)
        == Block(def, i, suits, ranks, |deck|) + [NewCard(def, i, suits[|r|], ranks[|r|])];
      r := r + [NewCard(def, i, suits[|r|], ranks[|r|])];
      i := i + 1;
    }
  }

  /**
   * `generateDeck`: pushes the cards entry by entry and copy by copy, then
   * shuffles them in place.  The count table and the library are parameters;
   * the game passes COUNTS and CARD_LIBRARY, for which StandardTable supplies
   * the preconditions of the last three postconditions.
   */
  method GenerateDeck(table: seq<(string, nat)>, lib: seq<CardDef>, suits: seq<real>, ranks: seq<real>, shuffles: seq<real>)
    returns (deck: seq<PlayingCard>)
    requires AllRandom(suits) && AllRandom(ranks) && AllRandom(shuffles)
    requires Total(table, |table|) <= |suits| && Total(table, |table|) <= |ranks|
    requires Total(table, |table|) <= |shuffles| + 1
    ensures deck == FisherYates(Built(table, lib, |table|, suits, ranks), shuffles)
    ensures multiset(deck) == multiset(Built(table, lib, |table|, suits, ranks))
    ensures AllFound(table, lib) ==> |deck| == Total(table, |table|)
    ensures AllFound(table, lib) && DistinctKeys(table) ==>
      forall k :: 0 <= k < |table| ==> CountId(deck, table[k].0) == table[k].1
    ensures forall c :: c in deck ==> FindDef(lib, c.def.id) == Some(c.def) && 1 <= c.number <= 13
    ensures DistinctKeys(table) ==> DistinctUids(deck)
  {
    var built := BuildDeck(table, lib, suits, ranks);
    deck := Shuffled(built, shuffles);
    BuiltCardsWellFormed(table, lib, |table|, suits, ranks);
    if AllFound(table, lib) {
      BuiltCounts(table, lib, |table|, suits, ranks, "");
      if DistinctKeys(table) {
        BuiltFacts(table, lib, suits, ranks);
        forall k | 0 <= k < |table| ensures CountId(deck, table[k].0) == table[k].1 {
          CountIdPermutation(deck, built, table[k].0);
        }
      }
    }
    forall c | c in deck ensures FindDef(lib, c.def.id) == Some(c.def) && 1 <= c.number <= 13 {
      assert c in multiset(built);
    }
    if DistinctKeys(table) {
      BuiltIdsDistinct(table, lib, |table|, suits, ranks);
      DistinctIffUnique(built);
      DistinctIffUnique(deck);
    }
  }
}
