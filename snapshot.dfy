/**
 * The read queries of the project cache, as functions of the snapshot `data`
 * (the cache's readers copy the mappings they need and compute outside the lock).
 *
 * The snapshot is the dictionary the remote service returned for the whole
 * project: `"deck"` maps deck ids to decks, `"card"` maps card ids to cards, and
 * `"last_update"` holds the time of the last successful refresh.
 */
module SnapshotQueries {
  import opened Wrappers
  import opened JsonValues
  import opened Text
  import opened Dates
  import opened Picks

  // ---------------------------------------------------------------------------
  // get_decks and get_card_info

  /** `data.get("deck", [])`. */
  function Decks(data: Dict): (r: Json)
    ensures Get(data, "deck").Some? ==> r == Get(data, "deck").value
    ensures Get(data, "deck").None? ==> r == Arr([])
  {
    GetOr(data, "deck", Arr([]))
  }

  /** `data.get("card", {})` is a dictionary, so `.get(card_id, {})` does not raise. */
  predicate CardMapReadable(data: Dict) {
    GetOr(data, "card", Obj([])).Obj?
  }

  /** `data.get("card", {}).get(card_id, {})`. */
  function CardInfo(data: Dict, id: string): (r: Json)
    requires CardMapReadable(data)
    ensures Get(data, "card").Some? && Get(Get(data, "card").value.entries, id).Some? ==>
              r == Get(Get(data, "card").value.entries, id).value
    ensures (Get(data, "card").None? || Get(Get(data, "card").value.entries, id).None?) ==> r == Obj([])
  {
    GetOr(GetOr(data, "card", Obj([])).entries, id, Obj([]))
  }

  /**
   * After `data.update(r)` with a response that has a `"card"` mapping, card
   * lookups answer from that mapping alone: the merge replaces the whole
   * mapping rather than the individual cards.
   */
  lemma CardInfoAfterMerge(data: Dict, r: Dict, id: string)
    requires DistinctKeys(r) && "card" in Keys(r) && CardMapReadable(r)
    ensures CardMapReadable(Update(data, r))
    ensures CardInfo(Update(data, r), id) == CardInfo(r, id)
  {
    GetUpdate(data, r, "card");
  }

  /**
   * A card stored before a merge whose response lacks it is no longer found:
   * the response's card mapping replaces the stored one.
   */
  lemma MergeDropsUnfetchedCard(c1: Json, c2: Json, c1': Json)
    ensures Update([("card", Obj([("C1", c1), ("C2", c2)]))], [("card", Obj([("C1", c1')]))])
            == [("card", Obj([("C1", c1')]))]
    ensures CardInfo([("card", Obj([("C1", c1), ("C2", c2)]))], "C2") == c2
    ensures CardInfo([("card", Obj([("C1", c1')]))], "C2") == Obj([])
  {
    var before := [("card", Obj([("C1", c1), ("C2", c2)]))];
    var response := [("card", Obj([("C1", c1')]))];
    assert "C1" != "C2" by { assert "C1"[1] != "C2"[1]; }
    assert Set(before, "card", Obj([("C1", c1')])) == response;
    assert Update(before, response) == Update(response, []);
    var stored := [("C1", c1), ("C2", c2)];
    assert Get(stored, "C2") == Get(stored[1..], "C2") == Some(c2);
    var fetched := [("C1", c1')];
    assert Get(fetched, "C2") == Get(fetched[1..], "C2") == None;
  }

  // ---------------------------------------------------------------------------
  // get_cards

  /** `deck_info.get("title", "")` is a string, so `.lower()` does not raise. */
  predicate DeckReadable(deck: Json) {
    deck.Obj? && GetOr(deck.entries, "title", Str("")).Str?
  }

  function DeckTitle(deck: Json): string
    requires DeckReadable(deck)
  {
    GetOr(deck.entries, "title", Str("")).s
  }

  /** `deck_info.get("id")`; a missing id is `None`, which is `null` in JSON. */
  function DeckId(deck: Json): Json
    requires deck.Obj?
  {
    GetOr(deck.entries, "id", Null)
  }

  /** `card_info.get("deckId")`. */
  function CardDeckId(card: Json): Json
    requires card.Obj?
  {
    GetOr(card.entries, "deckId", Null)
  }

  /** `deck_id.lower() in deck_info.get("title", "").lower()`. */
  predicate DeckMatches(deck: Json, filter: string)
    requires DeckReadable(deck)
  {
    Contains(Lower(DeckTitle(deck)), Lower(filter))
  }

  /** `matching_decks`: the ids of the matching decks, in deck-map order. */
  function MatchingDeckIds(decks: seq<Json>, filter: string): (r: seq<Json>)
    requires forall i :: 0 <= i < |decks| ==> DeckReadable(decks[i])
    ensures |r| <= |decks|
  {
    if decks == [] then []
    else (if DeckMatches(decks[0], filter) then [DeckId(decks[0])] else [])
         + MatchingDeckIds(decks[1..], filter)
  }

  /** `matching_cards`: the cards whose deck id is among `ids`, in card-map order. */
  function CardsInDecks(cards: seq<Json>, ids: seq<Json>): (r: seq<Json>)
    requires forall i :: 0 <= i < |cards| ==> cards[i].Obj?
    ensures |r| <= |cards|
    ensures forall i :: 0 <= i < |r| ==> r[i] in cards && r[i].Obj? && CardDeckId(r[i]) in ids
  {
    if cards == [] then []
    else (if CardDeckId(cards[0]) in ids then [cards[0]] else []) + CardsInDecks(cards[1..], ids)
  }

  /**
   * Once both mappings pass the `isinstance` check, every deck must answer
   * `.get("title", "").lower()` and every card `.get("deckId")`; otherwise
   * `get_cards` raises.
   */
  predicate CardsReadable(data: Dict) {
    var cards := GetOr(data, "card", Obj([]));
    var decks := GetOr(data, "deck", Obj([]));
    cards.Obj? && decks.Obj? ==>
      && (forall i :: 0 <= i < |decks.entries| ==> DeckReadable(decks.entries[i].1))
      && (forall i :: 0 <= i < |cards.entries| ==> cards.entries[i].1.Obj?)
  }

  /** `get_cards(deck_id)`. */
  function Cards(data: Dict, filter: string): (r: seq<Json>)
    requires CardsReadable(data)
    ensures forall i :: 0 <= i < |r| ==> GetOr(data, "card", Obj([])).Obj? && r[i] in Values(GetOr(data, "card", Obj([])).entries)
  {
    var cards := GetOr(data, "card", Obj([]));
    var decks := GetOr(data, "deck", Obj([]));
    if !cards.Obj? || !decks.Obj? then []
    else CardsInDecks(Values(cards.entries), MatchingDeckIds(Values(decks.entries), filter))
  }

  /**
   * `matching_decks` holds the id of exactly the decks whose lower-cased title
   * contains the lower-cased filter, in deck order.
   */
  lemma MatchingDeckIdsExact(decks: seq<Json>, filter: string) returns (idx: seq<int>)
    requires forall i :: 0 <= i < |decks| ==> DeckReadable(decks[i])
    ensures |idx| == |MatchingDeckIds(decks, filter)|
    ensures forall k :: 0 <= k < |idx| ==>
              0 <= idx[k] < |decks| && MatchingDeckIds(decks, filter)[k] == DeckId(decks[idx[k]])
    ensures forall k, l :: 0 <= k < l < |idx| ==> idx[k] < idx[l]
    ensures forall i :: 0 <= i < |decks| ==> (i in idx <==> DeckMatches(decks[i], filter))
  {
    var ys := DeckIds(decks);
    idx := MatchingDeckIdsPicks(decks, filter);
    forall k | 0 <= k < |idx|
      ensures 0 <= idx[k] < |decks| && MatchingDeckIds(decks, filter)[k] == DeckId(decks[idx[k]])
    {
      assert MatchingDeckIds(decks, filter)[k] == ys[idx[k]];
    }
  }

  /** The id of every deck. */
  function DeckIds(decks: seq<Json>): (ys: seq<Json>)
    requires forall i :: 0 <= i < |decks| ==> decks[i].Obj?
    ensures |ys| == |decks| && forall i :: 0 <= i < |decks| ==> ys[i] == DeckId(decks[i])
  {
    seq(|decks|, i requires 0 <= i < |decks| => DeckId(decks[i]))
  }

  lemma {:induction false} MatchingDeckIdsPicks(decks: seq<Json>, filter: string) returns (idx: seq<int>)
    requires forall i :: 0 <= i < |decks| ==> DeckReadable(decks[i])
    ensures PicksInOrder(MatchingDeckIds(decks, filter), DeckIds(decks), idx)
    ensures forall i :: 0 <= i < |decks| ==> (i in idx <==> DeckMatches(decks[i], filter))
  {
    if decks == [] {
      idx := [];
    } else {
      var tail := decks[1..];
      var rest := MatchingDeckIdsPicks(tail, filter);
      var keep := DeckMatches(decks[0], filter);
      assert [DeckId(decks[0])] + DeckIds(tail) == DeckIds(decks);
      assert MatchingDeckIds(decks, filter) == (if keep then [DeckId(decks[0])] else []) + MatchingDeckIds(tail, filter);
      idx := ConsPicks(DeckId(decks[0]), keep, DeckIds(tail), MatchingDeckIds(tail, filter), rest);
      forall i | 0 <= i < |decks| ensures (i in idx <==> DeckMatches(decks[i], filter)) {
        if i > 0 { assert tail[i - 1] == decks[i]; }
      }
    }
  }

  /** `matching_cards` is the subsequence of exactly the cards whose deck id is in `ids`. */
  lemma {:induction false} CardsInDecksExact(cards: seq<Json>, ids: seq<Json>) returns (idx: seq<int>)
    requires forall i :: 0 <= i < |cards| ==> cards[i].Obj?
    ensures PicksInOrder(CardsInDecks(cards, ids), cards, idx)
    ensures forall i :: 0 <= i < |cards| ==> (i in idx <==> CardDeckId(cards[i]) in ids)
  {
    if cards == [] {
      idx := [];
    } else {
      var tail := cards[1..];
      var rest := CardsInDecksExact(tail, ids);
      idx := ConsPicks(cards[0], CardDeckId(cards[0]) in ids, tail, CardsInDecks(tail, ids), rest);
      assert [cards[0]] + tail == cards;
      forall i | 0 <= i < |cards| ensures (i in idx <==> CardDeckId(cards[i]) in ids) {
        if i > 0 { assert tail[i - 1] == cards[i]; }
      }
    }
  }

  /** A deck whose title contains the filter, ignoring ASCII case. */
  ghost predicate TitleContains(deck: Json, filter: string)
    requires DeckReadable(deck)
  {
    exists p :: OccursAt(Lower(filter), Lower(DeckTitle(deck)), p)
  }

  /** An id is matched exactly when some deck with that id has a title containing the filter. */
  lemma InMatchingIds(ds: seq<Json>, filter: string, id: Json)
    requires forall j :: 0 <= j < |ds| ==> DeckReadable(ds[j])
    ensures id in MatchingDeckIds(ds, filter) <==>
            exists j :: 0 <= j < |ds| && TitleContains(ds[j], filter) && DeckId(ds[j]) == id
  {
    var deckIdx := MatchingDeckIdsExact(ds, filter);
    var ids := MatchingDeckIds(ds, filter);
    forall j | 0 <= j < |ds| ensures DeckMatches(ds[j], filter) <==> TitleContains(ds[j], filter) {
      ContainsIff(Lower(DeckTitle(ds[j])), Lower(filter));
    }
    if id in ids {
      var k :| 0 <= k < |ids| && ids[k] == id;
      var j := deckIdx[k];
      assert j in deckIdx;
      assert TitleContains(ds[j], filter);
    }
    if exists j :: 0 <= j < |ds| && TitleContains(ds[j], filter) && DeckId(ds[j]) == id {
      var j :| 0 <= j < |ds| && TitleContains(ds[j], filter) && DeckId(ds[j]) == id;
      assert j in deckIdx;
      var k :| 0 <= k < |deckIdx| && deckIdx[k] == j;
      assert ids[k] == id;
    }
  }

  /**
   * `get_cards(filter)` returns, in card-map order, exactly the cards whose
   * `deckId` is the id of some deck whose title contains `filter` ignoring case;
   * several decks may match. When either mapping is not a dictionary it
   * returns nothing.
   */
  lemma CardsExact(data: Dict, filter: string) returns (idx: seq<int>)
    requires CardsReadable(data)
    ensures var cards := GetOr(data, "card", Obj([]));
            var decks := GetOr(data, "deck", Obj([]));
            if !cards.Obj? || !decks.Obj? then Cards(data, filter) == []
            else
              && PicksInOrder(Cards(data, filter), Values(cards.entries), idx)
              && forall i :: 0 <= i < |cards.entries| ==>
                   (i in idx <==>
                      exists j :: 0 <= j < |decks.entries| && TitleContains(decks.entries[j].1, filter)
                                  && DeckId(decks.entries[j].1) == CardDeckId(cards.entries[i].1))
  {
    idx := [];
    var cards := GetOr(data, "card", Obj([]));
    var decks := GetOr(data, "deck", Obj([]));
    if cards.Obj? && decks.Obj? {
      var ds := Values(decks.entries);
      var cs := Values(cards.entries);
      var ids := MatchingDeckIds(ds, filter);
      idx := CardsInDecksExact(cs, ids);
      forall i | 0 <= i < |cs|
        ensures CardDeckId(cs[i]) in ids <==>
                exists j :: 0 <= j < |decks.entries| && TitleContains(decks.entries[j].1, filter)
                            && DeckId(decks.entries[j].1) == CardDeckId(cards.entries[i].1)
      {
        InMatchingIds(ds, filter, CardDeckId(cs[i]));
      }
    }
  }

  /** The empty filter matches every deck, so `get_cards("")` holds the cards of all decks. */
  lemma {:induction false} EmptyFilterMatchesEveryDeck(decks: seq<Json>)
    requires forall i :: 0 <= i < |decks| ==> DeckReadable(decks[i])
    ensures MatchingDeckIds(decks, "") == seq(|decks|, i requires 0 <= i < |decks| => DeckId(decks[i]))
    decreases |decks|
  {
    if decks != [] {
      EmptyContained(Lower(DeckTitle(decks[0])));
      EmptyFilterMatchesEveryDeck(decks[1..]);
      var all := seq(|decks|, i requires 0 <= i < |decks| => DeckId(decks[i]));
      var rest := seq(|decks| - 1, i requires 0 <= i < |decks| - 1 => DeckId(decks[1..][i]));
      assert all == [DeckId(decks[0])] + rest;
    }
  }

  /**
   * Decks are matched by their `id` field, not by their key in the deck map:
   * a deck without an `id` matches as `None`, so it selects the cards without
   * a `deckId` and not the cards that name its key.
   */
  lemma DeckKeyIsNotDeckId()
    ensures var keyed := Obj([("deckId", Str("D1"))]);
            var loose := Obj([]);
            var data := [("card", Obj([("C1", keyed), ("C2", loose)])),
                         ("deck", Obj([("D1", Obj([("title", Str("Sprint"))]))]))];
            CardsReadable(data) && Cards(data, "") == [loose]
  {
    var keyed := Obj([("deckId", Str("D1"))]);
    var loose := Obj([]);
    var deck := Obj([("title", Str("Sprint"))]);
    var data := [("card", Obj([("C1", keyed), ("C2", loose)])), ("deck", Obj([("D1", deck)]))];
    assert "card" != "deck" by { assert "card"[0] != "deck"[0]; }
    assert GetOr(data, "card", Obj([])) == Obj([("C1", keyed), ("C2", loose)]);
    assert GetOr(data[1..], "deck", Obj([])) == Obj([("D1", deck)]);
    assert GetOr(data, "deck", Obj([])) == Obj([("D1", deck)]);
    assert "title" != "id" by { assert |"title"| != |"id"|; }
    assert DeckId(deck) == Null;
    EmptyContained(Lower(DeckTitle(deck)));
    assert MatchingDeckIds([deck], "") == [Null];
    assert "deckId" != "D1";
    assert CardDeckId(keyed) == Str("D1");
    assert CardDeckId(loose) == Null;
    assert Values([("C1", keyed), ("C2", loose)]) == [keyed, loose];
    assert Values([("D1", deck)]) == [deck];
    assert CardsInDecks([keyed, loose], [Null]) == [loose] by {
      assert CardsInDecks([keyed, loose][1..], [Null]) == [loose];
    }
  }
}
