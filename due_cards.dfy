/**
 * `get_due_cards`: the cards whose content carries a `[dd/mm/yy]` due date,
 * with all the date tokens found in it, sorted by the first token and, when a
 * horizon is asked for, cut at that many days from today.
 *
 * Python's `list.sort` is stable; the model sorts by insertion, each element
 * going in front of the first element whose key is not smaller, which is the
 * stable order. The horizon test compares the token's date at midnight with
 * `now + timedelta(days)`; a midnight is at or before any time of the same day,
 * so the test is the comparison of the two dates.
 */
module DueDates {
  import opened Wrappers
  import opened JsonValues
  import opened Dates
  import opened Picks

  /** One element of the result: `{"card": card, "matches": [...]}`. */
  datatype Due = Due(card: Json, matches: seq<string>)

  /** `card.get("content", "")`. */
  function Content(card: Json): Json
    requires card.Obj?
  {
    GetOr(card.entries, "content", Str(""))
  }

  /** A card the query can search: a dictionary whose content is text. */
  predicate HasText(card: Json) {
    card.Obj? && Content(card).Str?
  }

  function TextOf(card: Json): string
    requires HasText(card)
  {
    Content(card).s
  }

  /** The first token `re.findall` returns parses with `strptime`, if there is one. */
  predicate FirstDateValid(s: string) {
    var m := FindAll(s);
    m == [] || (IsToken(m[0]) && ValidDate(TokenDate(m[0])))
  }

  /**
   * What `get_due_cards` needs of the snapshot not to raise: the card mapping
   * is a dictionary of dictionaries whose content is text, and each first
   * token is a real date (the sort key and the horizon test both parse it).
   */
  predicate DueReadable(data: Dict) {
    var cards := GetOr(data, "card", Obj([]));
    && cards.Obj?
    && forall i :: 0 <= i < |cards.entries| ==>
         HasText(cards.entries[i].1) && FirstDateValid(TextOf(cards.entries[i].1))
  }

  /** A card together with the tokens of its content. */
  function Tag(card: Json): Due
    requires HasText(card)
  {
    Due(card, FindAll(TextOf(card)))
  }

  /** `cards_with_due_dates` before sorting: the tagged cards with a token, in card order. */
  function WithDueDates(cards: seq<Json>): (r: seq<Due>)
    requires forall i :: 0 <= i < |cards| ==> HasText(cards[i])
    ensures |r| <= |cards|
    ensures forall i :: 0 <= i < |r| ==> r[i].card in cards
  {
    if cards == [] then []
    else (if HasToken(TextOf(cards[0])) then [Tag(cards[0])] else []) + WithDueDates(cards[1..])
  }

  /** The sort key: the date of the first token (a placeholder for elements without one). */
  function Key(x: Due): Date {
    if x.matches != [] && IsToken(x.matches[0]) then TokenDate(x.matches[0]) else Date(0, 0, 0)
  }

  /** `x` goes in front of the first element whose key is not smaller than its own. */
  function Insert(x: Due, s: seq<Due>): (r: seq<Due>)
    ensures |r| == |s| + 1
  {
    if s == [] then [x]
    else if DateLe(Key(x), Key(s[0])) then [x] + s
    else [s[0]] + Insert(x, s[1..])
  }

  /** The stable sort by `Key`. */
  function SortByDue(s: seq<Due>): (r: seq<Due>)
    ensures |r| == |s|
  {
    if s == [] then [] else Insert(s[0], SortByDue(s[1..]))
  }

  predicate SortedByDue(s: seq<Due>) {
    forall i, j :: 0 <= i < j < |s| ==> DateLe(Key(s[i]), Key(s[j]))
  }

  /** The elements with key `k`, in order. */
  function WithKey(s: seq<Due>, k: Date): seq<Due> {
    if s == [] then []
    else (if Key(s[0]) == k then [s[0]] else []) + WithKey(s[1..], k)
  }

  /** The horizon filter: the elements due on or before `h`, in order. */
  function UpTo(s: seq<Due>, h: Date): (r: seq<Due>)
    ensures |r| <= |s|
    ensures forall i :: 0 <= i < |r| ==> DateLe(Key(r[i]), h)
  {
    if s == [] then []
    else (if DateLe(Key(s[0]), h) then [s[0]] else []) + UpTo(s[1..], h)
  }

  /** `cards_with_due_dates` of the snapshot `data`. */
  function Dated(data: Dict): seq<Due>
    requires DueReadable(data)
  {
    WithDueDates(Values(GetOr(data, "card", Obj([])).entries))
  }

  /**
   * The horizon `now + timedelta(days=days_ahead)` is computed only when a
   * horizon is asked for and some card is dated; it stays within the year 9999,
   * past which it raises `OverflowError`.
   */
  predicate HorizonDefined(data: Dict, daysAhead: int, today: Date)
    requires DueReadable(data)
  {
    daysAhead > 0 && Dated(data) != [] ==> ValidDate(today) && AddDays(today, daysAhead).year <= 9999
  }

  /**
   * `get_due_cards(days_ahead)` on the snapshot `data`, `today` being the date
   * of `datetime.now()`.
   */
  function DueCards(data: Dict, daysAhead: int, today: Date): (r: seq<Due>)
    requires DueReadable(data) && HorizonDefined(data, daysAhead, today)
    ensures SortedByDue(r)
  {
    var found := Dated(data);
    var sorted := SortByDue(found);
    SortByDueSorted(found);
    if daysAhead > 0 && found != [] then
      UpToSorted(sorted, AddDays(today, daysAhead));
      UpTo(sorted, AddDays(today, daysAhead))
    else sorted
  }

  // ---------------------------------------------------------------------------
  // Which cards are picked

  /**
   * `cards_with_due_dates` holds, in card order, exactly the cards in whose
   * content `re.search` finds a token, each with the list `re.findall` returns.
   */
  lemma {:induction false} WithDueDatesExact(cards: seq<Json>) returns (idx: seq<int>)
    requires forall i :: 0 <= i < |cards| ==> HasText(cards[i])
    ensures |idx| == |WithDueDates(cards)|
    ensures forall k :: 0 <= k < |idx| ==>
              0 <= idx[k] < |cards| && WithDueDates(cards)[k] == Due(cards[idx[k]], FindAll(TextOf(cards[idx[k]])))
    ensures forall k, l :: 0 <= k < l < |idx| ==> idx[k] < idx[l]
    ensures forall i :: 0 <= i < |cards| ==> (i in idx <==> HasToken(TextOf(cards[i])))
  {
    var ys := Tags(cards);
    idx := WithDueDatesPicks(cards);
    forall k | 0 <= k < |idx|
      ensures 0 <= idx[k] < |cards| && WithDueDates(cards)[k] == Due(cards[idx[k]], FindAll(TextOf(cards[idx[k]])))
    {
      assert WithDueDates(cards)[k] == ys[idx[k]];
    }
  }

  /** Every card tagged with its tokens. */
  function Tags(cards: seq<Json>): (ys: seq<Due>)
    requires forall i :: 0 <= i < |cards| ==> HasText(cards[i])
    ensures |ys| == |cards| && forall i :: 0 <= i < |cards| ==> ys[i] == Tag(cards[i])
  {
    seq(|cards|, i requires 0 <= i < |cards| => Tag(cards[i]))
  }

  lemma {:induction false} WithDueDatesPicks(cards: seq<Json>) returns (idx: seq<int>)
    requires forall i :: 0 <= i < |cards| ==> HasText(cards[i])
    ensures PicksInOrder(WithDueDates(cards), Tags(cards), idx)
    ensures forall i :: 0 <= i < |cards| ==> (i in idx <==> HasToken(TextOf(cards[i])))
  {
    if cards == [] {
      idx := [];
    } else {
      var tail := cards[1..];
      var rest := WithDueDatesPicks(tail);
      var keep := HasToken(TextOf(cards[0]));
      assert [Tag(cards[0])] + Tags(tail) == Tags(cards);
      assert WithDueDates(cards) == (if keep then [Tag(cards[0])] else []) + WithDueDates(tail);
      idx := ConsPicks(Tag(cards[0]), keep, Tags(tail), WithDueDates(tail), rest);
      forall i | 0 <= i < |cards| ensures (i in idx <==> HasToken(TextOf(cards[i]))) {
        if i > 0 { assert tail[i - 1] == cards[i]; }
      }
    }
  }

  /** Every picked card's text has a first match, and it is the leftmost token of the text. */
  lemma TagKey(card: Json)
    requires HasText(card) && HasToken(TextOf(card))
    ensures Tag(card).matches != [] && IsToken(Tag(card).matches[0])
    ensures exists p :: LeftmostToken(TextOf(card), p)
                        && Key(Tag(card)) == TokenDate(TextOf(card)[p..p + TokenLength])
  {
    FindAllFirst(TextOf(card));
    assert Tag(card).matches[0] in FindAll(TextOf(card));
  }

  // ---------------------------------------------------------------------------
  // The sort

  lemma {:induction false} InsertCount(x: Due, s: seq<Due>)
    ensures multiset(Insert(x, s)) == multiset(s) + multiset{x}
    decreases |s|
  {
    if s != [] && !DateLe(Key(x), Key(s[0])) {
      InsertCount(x, s[1..]);
      assert s == [s[0]] + s[1..];
    }
  }

  /** The sort rearranges its input: same elements, same number of times. */
  lemma {:induction false} SortByDuePermutes(s: seq<Due>)
    ensures multiset(SortByDue(s)) == multiset(s)
    decreases |s|
  {
    if s != [] {
      SortByDuePermutes(s[1..]);
      InsertCount(s[0], SortByDue(s[1..]));
      assert s == [s[0]] + s[1..];
    }
  }

  lemma SortedCons(y: Due, t: seq<Due>)
    requires SortedByDue(t)
    requires forall z :: z in t ==> DateLe(Key(y), Key(z))
    ensures SortedByDue([y] + t)
  {
    var s := [y] + t;
    forall i, j | 0 <= i < j < |s| ensures DateLe(Key(s[i]), Key(s[j])) {
      if i == 0 {
        assert s[j] == t[j - 1] && s[j] in t;
      } else {
        assert s[i] == t[i - 1] && s[j] == t[j - 1];
      }
    }
  }

  lemma {:induction false} InsertSorted(x: Due, s: seq<Due>)
    requires SortedByDue(s)
    ensures SortedByDue(Insert(x, s))
    decreases |s|
  {
    if s == [] {
    } else if DateLe(Key(x), Key(s[0])) {
      forall z | z in s ensures DateLe(Key(x), Key(z)) {
        var j :| 0 <= j < |s| && s[j] == z;
        if j > 0 { DateLeTotalOrder(Key(x), Key(s[0]), Key(z)); }
      }
      SortedCons(x, s);
    } else {
      var tail := s[1..];
      assert SortedByDue(tail) by {
        forall i, j | 0 <= i < j < |tail| ensures DateLe(Key(tail[i]), Key(tail[j])) {
          assert tail[i] == s[i + 1] && tail[j] == s[j + 1];
        }
      }
      InsertSorted(x, tail);
      InsertCount(x, tail);
      forall z | z in Insert(x, tail) ensures DateLe(Key(s[0]), Key(z)) {
        assert z in multiset(Insert(x, tail));
        if z == x {
          DateLeTotalOrder(Key(x), Key(s[0]), Key(x));
        } else {
          assert z in multiset(tail);
          var j :| 0 <= j < |tail| && tail[j] == z;
          assert s[j + 1] == z;
        }
      }
      SortedCons(s[0], Insert(x, tail));
    }
  }

  /** The sort puts the elements in order of their first due date. */
  lemma {:induction false} SortByDueSorted(s: seq<Due>)
    ensures SortedByDue(SortByDue(s))
    decreases |s|
  {
    if s != [] {
      SortByDueSorted(s[1..]);
      InsertSorted(s[0], SortByDue(s[1..]));
    }
  }

  lemma {:induction false} InsertWithKey(x: Due, s: seq<Due>, k: Date)
    ensures WithKey(Insert(x, s), k) == if Key(x) == k then [x] + WithKey(s, k) else WithKey(s, k)
    decreases |s|
  {
    if s == [] {
    } else if DateLe(Key(x), Key(s[0])) {
      assert Insert(x, s) == [x] + s;
      assert ([x] + s)[1..] == s;
    } else {
      InsertWithKey(x, s[1..], k);
      DateLeTotalOrder(Key(x), Key(s[0]), Key(x));
      assert Insert(x, s) == [s[0]] + Insert(x, s[1..]);
      assert ([s[0]] + Insert(x, s[1..]))[1..] == Insert(x, s[1..]);
    }
  }

  /**
   * Stability: the elements due on the same date keep the order they had in
   * the card mapping.
   */
  lemma {:induction false} SortByDueStable(s: seq<Due>, k: Date)
    ensures WithKey(SortByDue(s), k) == WithKey(s, k)
    decreases |s|
  {
    if s != [] {
      SortByDueStable(s[1..], k);
      InsertWithKey(s[0], SortByDue(s[1..]), k);
    }
  }

  // ---------------------------------------------------------------------------
  // The horizon

  lemma {:induction false} UpToCount(s: seq<Due>, h: Date, x: Due)
    ensures multiset(UpTo(s, h))[x] == if DateLe(Key(x), h) then multiset(s)[x] else 0
    decreases |s|
  {
    if s != [] {
      UpToCount(s[1..], h, x);
      assert s == [s[0]] + s[1..];
    }
  }

  lemma {:induction false} UpToWithKey(s: seq<Due>, h: Date, k: Date)
    ensures WithKey(UpTo(s, h), k) == if DateLe(k, h) then WithKey(s, k) else []
    decreases |s|
  {
    if s != [] {
      UpToWithKey(s[1..], h, k);
      var rest := UpTo(s[1..], h);
      if DateLe(Key(s[0]), h) {
        assert UpTo(s, h) == [s[0]] + rest;
        assert ([s[0]] + rest)[1..] == rest;
        assert WithKey(UpTo(s, h), k) == (if Key(s[0]) == k then [s[0]] else []) + WithKey(rest, k);
      } else {
        assert UpTo(s, h) == rest;
        assert DateLe(k, h) ==> Key(s[0]) != k;
      }
    }
  }

  lemma {:induction false} UpToPicks(s: seq<Due>, h: Date) returns (idx: seq<int>)
    ensures PicksInOrder(UpTo(s, h), s, idx)
    decreases |s|
  {
    if s == [] {
      idx := [];
    } else {
      var rest := UpToPicks(s[1..], h);
      idx := ConsPicks(s[0], DateLe(Key(s[0]), h), s[1..], UpTo(s[1..], h), rest);
      assert [s[0]] + s[1..] == s;
    }
  }

  /** Cutting a sorted list at the horizon leaves it sorted. */
  lemma UpToSorted(s: seq<Due>, h: Date)
    requires SortedByDue(s)
    ensures SortedByDue(UpTo(s, h))
  {
    var idx := UpToPicks(s, h);
    var r := UpTo(s, h);
    forall i, j | 0 <= i < j < |r| ensures DateLe(Key(r[i]), Key(r[j])) {
      assert r[i] == s[idx[i]] && r[j] == s[idx[j]] && idx[i] < idx[j];
    }
  }

  // ---------------------------------------------------------------------------
  // The whole query

  /**
   * `get_due_cards` returns each tagged card as many times as it occurs among
   * the cards with a token, and only those due by the horizon when one is
   * asked for; sorted by first due date; equal dates in card order.
   */
  lemma DueCardsCharacterised(data: Dict, daysAhead: int, today: Date)
    requires DueReadable(data) && HorizonDefined(data, daysAhead, today)
    ensures SortedByDue(DueCards(data, daysAhead, today))
    ensures var found := Dated(data);
            forall x :: multiset(DueCards(data, daysAhead, today))[x] ==
              if daysAhead > 0 && found != [] && !DateLe(Key(x), AddDays(today, daysAhead)) then 0
              else multiset(found)[x]
    ensures var found := Dated(data);
            forall k :: WithKey(DueCards(data, daysAhead, today), k) ==
              if daysAhead > 0 && found != [] && !DateLe(k, AddDays(today, daysAhead)) then []
              else WithKey(found, k)
  {
    var found := Dated(data);
    var sorted := SortByDue(found);
    SortByDueSorted(found);
    SortByDuePermutes(found);
    forall k ensures WithKey(sorted, k) == WithKey(found, k) {
      SortByDueStable(found, k);
    }
    if daysAhead > 0 && found != [] {
      var h := AddDays(today, daysAhead);
      UpToSorted(sorted, h);
      forall x ensures multiset(UpTo(sorted, h))[x] == if DateLe(Key(x), h) then multiset(found)[x] else 0 {
        UpToCount(sorted, h, x);
      }
      forall k ensures WithKey(UpTo(sorted, h), k) == if DateLe(k, h) then WithKey(found, k) else [] {
        UpToWithKey(sorted, h, k);
      }
    }
  }
  /**
   * Without a dated card the list is empty for every horizon, however far:
   * the horizon is never computed, so no `OverflowError` is raised.
   */
  lemma NoDatedCardsNoHorizon(data: Dict, daysAhead: int, today: Date)
    requires DueReadable(data) && Dated(data) == []
    ensures HorizonDefined(data, daysAhead, today)
    ensures DueCards(data, daysAhead, today) == []
  {
  }

  // ---------------------------------------------------------------------------
  // A worked case

  lemma RenewalText(text: string)
    requires text == "[05/01/25] renew"
    ensures HasToken(text) && FindAll(text) == ["[05/01/25]"]
  {
    assert text[..TokenLength] == "[05/01/25]";
    assert IsToken(text[..TokenLength]);
    assert FindAll(text[TokenLength..]) == [];
    assert TokenAt(text, 0);
  }

  lemma StepsFromNewYear()
    ensures AddDays(Date(2025, 1, 1), 2) == Date(2025, 1, 3)
    ensures AddDays(Date(2025, 1, 1), 10) == Date(2025, 1, 11)
  {
    assert AddDays(Date(2025, 1, 3), 8) == Date(2025, 1, 11);
  }

  lemma RenewalKey(t: string)
    requires t == "[05/01/25]"
    ensures IsToken(t) && TokenDate(t) == Date(2025, 1, 5)
  {
    assert t[1] == '0' && t[2] == '5' && t[4] == '0' && t[5] == '1' && t[7] == '2' && t[8] == '5';
  }

  lemma RenewalFound(card: Json, data: Dict)
    requires card == Obj([("content", Str("[05/01/25] renew"))])
    requires data == [("card", Obj([("C1", card)]))]
    ensures DueReadable(data)
    ensures SortByDue(WithDueDates(Values(GetOr(data, "card", Obj([])).entries))) == [Due(card, ["[05/01/25]"])]
    ensures Key(Due(card, ["[05/01/25]"])) == Date(2025, 1, 5)
  {
    assert TextOf(card) == "[05/01/25] renew";
    RenewalText(TextOf(card));
    RenewalKey("[05/01/25]");
    var x := Due(card, ["[05/01/25]"]);
    assert GetOr(data, "card", Obj([])) == Obj([("C1", card)]);
    assert Values([("C1", card)]) == [card];
    assert WithDueDates([card]) == [x];
    assert FirstDateValid(TextOf(card));
  }

  lemma RenewalDated(card: Json, data: Dict)
    requires card == Obj([("content", Str("[05/01/25] renew"))])
    requires data == [("card", Obj([("C1", card)]))]
    ensures DueReadable(data) && Dated(data) != []
    ensures SortByDue(Dated(data)) == [Due(card, ["[05/01/25]"])]
    ensures Key(Due(card, ["[05/01/25]"])) == Date(2025, 1, 5)
  {
    RenewalFound(card, data);
    assert |SortByDue(Dated(data))| == 1;
  }

  /** `get_due_cards` on a snapshot whose one dated card is `x`. */
  lemma DueCardsOfOne(data: Dict, daysAhead: int, today: Date, x: Due)
    requires DueReadable(data) && HorizonDefined(data, daysAhead, today)
    requires Dated(data) != [] && SortByDue(Dated(data)) == [x]
    ensures daysAhead > 0 ==> DueCards(data, daysAhead, today) == UpTo([x], AddDays(today, daysAhead))
    ensures daysAhead <= 0 ==> DueCards(data, daysAhead, today) == [x]
  {
  }

  /**
   * A card due on 5 January 2025 is listed on 1 January 2025 within ten days,
   * or with no horizon, and not within two days.
   */
  lemma RenewalDueInTenDays(card: Json, data: Dict)
    requires card == Obj([("content", Str("[05/01/25] renew"))])
    requires data == [("card", Obj([("C1", card)]))]
    ensures DueReadable(data)
    ensures AddDays(Date(2025, 1, 1), 10) == Date(2025, 1, 11) && AddDays(Date(2025, 1, 1), 2) == Date(2025, 1, 3)
    ensures DueCards(data, 10, Date(2025, 1, 1)) == [Due(card, ["[05/01/25]"])]
    ensures DueCards(data, 0, Date(2025, 1, 1)) == [Due(card, ["[05/01/25]"])]
    ensures DueCards(data, 2, Date(2025, 1, 1)) == []
  {
    RenewalDated(card, data);
    StepsFromNewYear();
    var x := Due(card, ["[05/01/25]"]);
    DueCardsOfOne(data, 10, Date(2025, 1, 1), x);
    DueCardsOfOne(data, 0, Date(2025, 1, 1), x);
    DueCardsOfOne(data, 2, Date(2025, 1, 1), x);
    assert UpTo([x], Date(2025, 1, 11)) == [x];
    assert UpTo([x], Date(2025, 1, 3)) == [];
  }
}
