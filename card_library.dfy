/** The flashcard library the flashcards page builds from storage when it
    mounts (FlashcardsPage.jsx): duplicate cards merged, cards grouped into
    decks, and the queries the page renders from that state (filtered
    cards and decks, the Anki export text, the study cursor). */
module CardLibrary {
  import opened Lists
  import opened Text
  import opened Sorting
  import opened Entities
  import opened Browser

  // ---------------------------------------------------------------------
  // Duplicate cards
  // ---------------------------------------------------------------------

  /** The content key of each card, in order. */
  function Keys(cards: seq<Card>): (r: seq<string>)
    ensures |r| == |cards| && forall i :: 0 <= i < |cards| ==> r[i] == CardKey(cards[i])
  {
    if cards == [] then [] else Keys(cards[..|cards| - 1]) + [CardKey(cards[|cards| - 1])]
  }

  /** The content key does not depend on the tags. */
  lemma KeysIgnoreTags(cards: seq<Card>, j: nat, tags: seq<string>)
    requires j < |cards|
    ensures Keys(cards[j := cards[j].(tags := tags)]) == Keys(cards)
  {
  }

  lemma KeysSnoc(cards: seq<Card>, c: Card)
    ensures Keys(cards + [c]) == Keys(cards) + [CardKey(c)]
  {
  }

  /** One step of the mount loop. A card whose key is new is kept as it is;
      a card whose key was seen merges its tags into the kept card (the
      kept card's tags followed by the new ones, through a `Set`) and is
      otherwise dropped. */
  function Absorb(unique: seq<Card>, card: Card): seq<Card> {
    var keys := Keys(unique);
    if CardKey(card) in keys then
      var j := FirstIndex(keys, CardKey(card));
      unique[j := unique[j].(tags := Dedup(unique[j].tags + card.tags))]
    else
      unique + [card]
  }

  /** `allFlashcards`: the stored cards after the mount loop. */
  function Unique(stored: seq<Card>): seq<Card> {
    if stored == [] then [] else Absorb(Unique(stored[..|stored| - 1]), stored[|stored| - 1])
  }

  lemma UniqueStep(stored: seq<Card>, i: nat)
    requires i < |stored|
    ensures Unique(stored[..i + 1]) == Absorb(Unique(stored[..i]), stored[i])
  {
    assert stored[..i + 1][..i] == stored[..i];
  }

  /** The kept cards have exactly the keys of the stored cards, each once,
      in order of first occurrence. */
  lemma {:induction false} UniqueKeys(stored: seq<Card>)
    ensures Keys(Unique(stored)) == Dedup(Keys(stored))
  {
    if stored != [] {
      var init := stored[..|stored| - 1];
      var c := stored[|stored| - 1];
      var u := Unique(init);
      var kc := CardKey(c);
      assert stored == init + [c];
      calc {
        Keys(Unique(stored));
        Keys(Absorb(u, c));
        { AbsorbKeys(u, c); }
        AddIfAbsent(Keys(u), kc);
        { UniqueKeys(init); }
        AddIfAbsent(Dedup(Keys(init)), kc);
        { DedupSnoc(Keys(init), kc); }
        Dedup(Keys(init) + [kc]);
        { KeysSnoc(init, c); }
        Dedup(Keys(stored));
      }
    }
  }

  /** One step of the mount loop adds the card's key to the keys as a `Set`
      does. */
  lemma AbsorbKeys(u: seq<Card>, c: Card)
    ensures Keys(Absorb(u, c)) == AddIfAbsent(Keys(u), CardKey(c))
  {
    var kc := CardKey(c);
    if kc in Keys(u) {
      var j := FirstIndex(Keys(u), kc);
      var merged := Dedup(u[j].tags + c.tags);
      assert Absorb(u, c) == u[j := u[j].(tags := merged)];
      KeysIgnoreTags(u, j, merged);
    } else {
      KeysSnoc(u, c);
    }
  }

  /** After the mount loop no two cards share a key, every stored key is
      held by exactly one card, no card is invented, and the cards come in
      the order in which their keys first occur in storage. */
  lemma UniqueSpec(stored: seq<Card>)
    ensures NoDuplicates(Keys(Unique(stored)))
    ensures |Unique(stored)| <= |stored|
    ensures forall k :: k in Keys(Unique(stored)) <==> k in Keys(stored)
    ensures forall k :: k in Keys(stored) ==> Count(Keys(Unique(stored)), k) == 1
    ensures forall i, j :: 0 <= i < j < |Unique(stored)| ==>
              FirstIndex(Keys(stored), CardKey(Unique(stored)[i]))
              < FirstIndex(Keys(stored), CardKey(Unique(stored)[j]))
  {
    UniqueKeys(stored);
    DedupSpec(Keys(stored));
    var ks := Keys(Unique(stored));
    forall k | k in Keys(stored) ensures Count(ks, k) == 1 {
      CountDistinct(ks, FirstIndex(ks, k));
    }
    DedupFirstOccurrenceOrder(Keys(stored));
  }

  /** Two cards agree on everything except their tags. */
  predicate SameButTags(a: Card, b: Card) {
    a.id == b.id && a.front == b.front && a.back == b.back && a.deck == b.deck
  }

  /** For a duplicate the kept card (a `Map` holds the first card it was
      given) keeps its id, front, back and deck; the duplicate's id and deck
      are dropped, and the list does not grow. */
  lemma AbsorbDuplicate(unique: seq<Card>, card: Card)
    requires CardKey(card) in Keys(unique)
    ensures |Absorb(unique, card)| == |unique|
    ensures forall i :: 0 <= i < |unique| ==> SameButTags(Absorb(unique, card)[i], unique[i])
    ensures var j := FirstIndex(Keys(unique), CardKey(card));
            Absorb(unique, card)[j].tags == Dedup(unique[j].tags + card.tags)
            && forall i :: 0 <= i < |unique| && i != j ==> Absorb(unique, card)[i] == unique[i]
  {
  }

  /** Merging through a `Set`: tags already on the kept card stay in front
      in their order, followed by the new tags not yet present, each once. */
  lemma MergedTagsOrder(kept: seq<string>, dup: seq<string>)
    requires NoDuplicates(kept)
    ensures Dedup(kept + dup) == kept + Dedup(Unseen(dup, kept))
  {
    DedupConcat(kept, dup);
    DedupOfDistinct(kept);
  }

  /** Each card of `u` is the first card of `stored` with its key, except
      for its tags. */
  ghost predicate KeepsFirst(stored: seq<Card>, u: seq<Card>) {
    forall i :: 0 <= i < |u| ==>
      CardKey(u[i]) in Keys(stored) && SameButTags(u[i], stored[FirstIndex(Keys(stored), CardKey(u[i]))])
  }

  lemma KeepsFirstExtend(init: seq<Card>, c: Card, u: seq<Card>)
    requires KeepsFirst(init, u)
    ensures KeepsFirst(init + [c], u)
  {
    KeysSnoc(init, c);
    forall i | 0 <= i < |u|
      ensures FirstIndex(Keys(init + [c]), CardKey(u[i])) == FirstIndex(Keys(init), CardKey(u[i]))
    {
      FirstIndexPrefix(Keys(init), [CardKey(c)], CardKey(u[i]));
    }
  }

  lemma KeepsFirstRetag(stored: seq<Card>, u: seq<Card>, r: seq<Card>)
    requires KeepsFirst(stored, u)
    requires |r| == |u| && forall i :: 0 <= i < |u| ==> SameButTags(r[i], u[i])
    ensures KeepsFirst(stored, r)
  {
    forall i | 0 <= i < |u| ensures CardKey(r[i]) == CardKey(u[i]) {
    }
  }

  lemma KeepsFirstNew(init: seq<Card>, c: Card, u: seq<Card>)
    requires KeepsFirst(init + [c], u)
    requires CardKey(c) !in Keys(init)
    ensures KeepsFirst(init + [c], u + [c])
  {
    var stored := init + [c];
    var r := u + [c];
    KeysSnoc(init, c);
    FirstIndexLast(Keys(init), CardKey(c));
    forall i | 0 <= i < |r|
      ensures CardKey(r[i]) in Keys(stored) && SameButTags(r[i], stored[FirstIndex(Keys(stored), CardKey(r[i]))])
    {
      if i < |u| {
        assert r[i] == u[i];
      } else {
        assert r[i] == c && stored[|init|] == c;
      }
    }
  }

  /** Each kept card is the first stored card with its key, except for its
      tags. */
  lemma {:induction false} UniqueKeepsFirst(stored: seq<Card>)
    ensures KeepsFirst(stored, Unique(stored))
  {
    if stored != [] {
      var init := stored[..|stored| - 1];
      var c := stored[|stored| - 1];
      var u := Unique(init);
      assert stored == init + [c];
      assert Unique(stored) == Absorb(u, c);
      UniqueKeepsFirst(init);
      UniqueKeys(init);
      DedupSpec(Keys(init));
      KeepsFirstExtend(init, c, u);
      if CardKey(c) in Keys(u) {
        AbsorbDuplicate(u, c);
        KeepsFirstRetag(stored, u, Absorb(u, c));
      } else {
        KeepsFirstNew(init, c, u);
      }
    }
  }

  /** The tags of every stored card with key `k`, in storage order. */
  function TagsOfKey(stored: seq<Card>, k: string): seq<string> {
    if stored == [] then []
    else
      var c := stored[|stored| - 1];
      TagsOfKey(stored[..|stored| - 1], k) + (if CardKey(c) == k then c.tags else [])
  }

  /** The tags the kept card with key `k` ends with: a card stored once
      keeps its tags untouched; a card stored more than once gets the tags
      of all its copies, each once, in order of first occurrence. */
  function MergedTags(stored: seq<Card>, k: string): seq<string> {
    if Count(Keys(stored), k) == 1 then TagsOfKey(stored, k) else Dedup(TagsOfKey(stored, k))
  }

  lemma {:induction false} TagsOfAbsentKey(stored: seq<Card>, k: string)
    requires k !in Keys(stored)
    ensures TagsOfKey(stored, k) == []
  {
    if stored != [] {
      var init := stored[..|stored| - 1];
      assert stored == init + [stored[|stored| - 1]];
      KeysSnoc(init, stored[|stored| - 1]);
      TagsOfAbsentKey(init, k);
    }
  }

  lemma CountOtherKey(init: seq<Card>, c: Card, k: string)
    requires CardKey(c) != k
    ensures Count(Keys(init + [c]), k) == Count(Keys(init), k)
  {
    KeysSnoc(init, c);
    assert multiset(Keys(init + [c])) == multiset(Keys(init)) + multiset{CardKey(c)};
  }

  lemma CountSameKey(init: seq<Card>, c: Card)
    ensures Count(Keys(init + [c]), CardKey(c)) == Count(Keys(init), CardKey(c)) + 1
  {
    KeysSnoc(init, c);
    assert multiset(Keys(init + [c])) == multiset(Keys(init)) + multiset{CardKey(c)};
  }

  lemma TagsOfKeySnoc(init: seq<Card>, c: Card, k: string)
    ensures TagsOfKey(init + [c], k) == TagsOfKey(init, k) + (if CardKey(c) == k then c.tags else [])
  {
    assert (init + [c])[..|init + [c]| - 1] == init;
  }

  /** Appending a card with another key changes nothing about key `k`. */
  lemma MergedTagsOtherKey(init: seq<Card>, c: Card, k: string)
    requires CardKey(c) != k
    ensures MergedTags(init + [c], k) == MergedTags(init, k)
  {
    CountOtherKey(init, c, k);
    TagsOfKeySnoc(init, c, k);
    assert TagsOfKey(init, k) + [] == TagsOfKey(init, k);
  }

  /** Each card of `u` carries the merged tags of its key. */
  ghost predicate TagsMerged(stored: seq<Card>, u: seq<Card>) {
    forall i :: 0 <= i < |u| ==> u[i].tags == MergedTags(stored, CardKey(u[i]))
  }

  lemma TagsMergedDuplicate(init: seq<Card>, c: Card, u: seq<Card>)
    requires TagsMerged(init, u)
    requires Keys(u) == Dedup(Keys(init))
    requires CardKey(c) in Keys(u)
    ensures TagsMerged(init + [c], Absorb(u, c))
  {
    DedupSpec(Keys(init));
    var kc := CardKey(c);
    var j := FirstIndex(Keys(u), kc);
    var r := u[j := u[j].(tags := Dedup(u[j].tags + c.tags))];
    assert Absorb(u, c) == r;
    forall i | 0 <= i < |r| ensures r[i].tags == MergedTags(init + [c], CardKey(r[i])) {
      if i == j {
        assert kc in Keys(init);
        MergeAgain(init, c);
        assert CardKey(r[j]) == kc;
      } else {
        assert Keys(u)[i] != Keys(u)[j];
        MergedTagsOtherKey(init, c, CardKey(u[i]));
      }
    }
  }

  /** Merging one more copy into the tags already merged for its key. */
  lemma MergeAgain(init: seq<Card>, c: Card)
    requires CardKey(c) in Keys(init)
    ensures Dedup(MergedTags(init, CardKey(c)) + c.tags) == MergedTags(init + [c], CardKey(c))
  {
    var kc := CardKey(c);
    CountSameKey(init, c);
    TagsOfKeySnoc(init, c, kc);
    assert Count(Keys(init), kc) >= 1;
    if Count(Keys(init), kc) != 1 {
      DedupAbsorbs(TagsOfKey(init, kc), c.tags);
    }
  }

  lemma TagsMergedNew(init: seq<Card>, c: Card, u: seq<Card>)
    requires TagsMerged(init, u)
    requires Keys(u) == Dedup(Keys(init))
    requires CardKey(c) !in Keys(u)
    ensures TagsMerged(init + [c], u + [c])
  {
    var r := u + [c];
    TagsMergedKeep(init, c, u);
    assert CardKey(c) !in Keys(init) by {
      DedupMember(Keys(init), CardKey(c));
    }
    FirstCopyTags(init, c);
    TagsMergedSnoc(init + [c], u, c);
  }

  lemma TagsMergedSnoc(stored: seq<Card>, u: seq<Card>, c: Card)
    requires forall i :: 0 <= i < |u| ==> u[i].tags == MergedTags(stored, CardKey(u[i]))
    requires c.tags == MergedTags(stored, CardKey(c))
    ensures TagsMerged(stored, u + [c])
  {
    var r := u + [c];
    forall i | 0 <= i < |r| ensures r[i].tags == MergedTags(stored, CardKey(r[i])) {
      if i < |u| {
        assert r[i] == u[i];
      }
    }
  }

  /** A card of another key does not change the merged tags of the kept
      cards. */
  lemma TagsMergedKeep(init: seq<Card>, c: Card, u: seq<Card>)
    requires TagsMerged(init, u)
    requires CardKey(c) !in Keys(u)
    ensures forall i :: 0 <= i < |u| ==> u[i].tags == MergedTags(init + [c], CardKey(u[i]))
  {
    forall i | 0 <= i < |u| ensures u[i].tags == MergedTags(init + [c], CardKey(u[i])) {
      assert Keys(u)[i] == CardKey(u[i]);
      assert u[i].tags == MergedTags(init, CardKey(u[i]));
      MergedTagsOtherKey(init, c, CardKey(u[i]));
    }
  }

  /** A card whose key is new keeps its own tags. */
  lemma FirstCopyTags(init: seq<Card>, c: Card)
    requires CardKey(c) !in Keys(init)
    ensures MergedTags(init + [c], CardKey(c)) == c.tags
  {
    TagsOfAbsentKey(init, CardKey(c));
    CountSameKey(init, c);
    TagsOfKeySnoc(init, c, CardKey(c));
    assert Count(Keys(init), CardKey(c)) == 0;
    assert [] + c.tags == c.tags;
  }

  /** The tags of every card after the mount loop. */
  lemma {:induction false} UniqueTags(stored: seq<Card>)
    ensures TagsMerged(stored, Unique(stored))
  {
    if stored != [] {
      var init := stored[..|stored| - 1];
      var c := stored[|stored| - 1];
      var u := Unique(init);
      assert stored == init + [c];
      assert Unique(stored) == Absorb(u, c);
      UniqueTags(init);
      UniqueKeys(init);
      if CardKey(c) in Keys(u) {
        TagsMergedDuplicate(init, c, u);
      } else {
        TagsMergedNew(init, c, u);
      }
    }
  }

  // ---------------------------------------------------------------------
  // Decks
  // ---------------------------------------------------------------------

  /** A deck row of the page; `cards` is left out (nothing renders it). */
  datatype Deck = Deck(id: string, name: string, count: int)

  /** The deck of each card, in order. */
  function DeckOf(cards: seq<Card>): (r: seq<string>)
    ensures |r| == |cards| && forall i :: 0 <= i < |cards| ==> r[i] == cards[i].deck
  {
    if cards == [] then [] else DeckOf(cards[..|cards| - 1]) + [cards[|cards| - 1].deck]
  }

  lemma DeckOfSnoc(cards: seq<Card>, c: Card)
    ensures DeckOf(cards + [c]) == DeckOf(cards) + [c.deck]
  {
  }

  lemma DeckOfIgnoresTags(cards: seq<Card>, j: nat, tags: seq<string>)
    requires j < |cards|
    ensures DeckOf(cards[j := cards[j].(tags := tags)]) == DeckOf(cards)
  {
  }

  /** The number of cards in deck `d`. */
  function DeckSize(cards: seq<Card>, d: string): nat {
    Count(DeckOf(cards), d)
  }

  /** One deck row per name, with the number of occurrences in `decks`. */
  function RowsOf(names: seq<string>, decks: seq<string>): (r: seq<Deck>)
    ensures |r| == |names|
    ensures forall i :: 0 <= i < |names| ==> r[i] == Deck(names[i], names[i], Count(decks, names[i]))
  {
    if names == [] then [] else [Deck(names[0], names[0], Count(decks, names[0]))] + RowsOf(names[1..], decks)
  }

  /** `Object.keys(deckMap).map(...)`: a row for each deck, in the order the
      decks first occur. */
  function DeckRows(cards: seq<Card>): seq<Deck> {
    RowsOf(Dedup(DeckOf(cards)), DeckOf(cards))
  }

  function DeckCount(d: Deck): int {
    d.count
  }

  lemma {:induction false} RowsSnoc(names: seq<string>, decks: seq<string>, x: string)
    requires NoDuplicates(names)
    ensures Sum(RowsOf(names, decks + [x]), DeckCount) == Sum(RowsOf(names, decks), DeckCount) + (if x in names then 1 else 0)
  {
    if names != [] {
      assert multiset(decks + [x]) == multiset(decks) + multiset{x};
      RowsSnoc(names[1..], decks, x);
      assert names[0] !in names[1..];
    }
  }

  /** Rows for names covering every deck count each card once. */
  lemma {:induction false} RowsTotal(names: seq<string>, decks: seq<string>)
    requires NoDuplicates(names)
    requires forall i :: 0 <= i < |decks| ==> decks[i] in names
    ensures Sum(RowsOf(names, decks), DeckCount) == |decks|
  {
    if decks == [] {
      if names != [] {
        RowsTotal(names[1..], decks);
      }
    } else {
      var init := decks[..|decks| - 1];
      assert decks == init + [decks[|decks| - 1]];
      RowsTotal(names, init);
      RowsSnoc(names, init, decks[|decks| - 1]);
    }
  }

  /** Each row is named after one of the names and counts its
      occurrences. */
  lemma RowsShape(names: seq<string>, decks: seq<string>)
    ensures forall d :: d in RowsOf(names, decks) ==>
              d.id == d.name && d.name in names && d.count == Count(decks, d.name)
  {
    var rows := RowsOf(names, decks);
    forall d | d in rows ensures d.id == d.name && d.name in names && d.count == Count(decks, d.name) {
      var i :| 0 <= i < |rows| && rows[i] == d;
      assert d == Deck(names[i], names[i], Count(decks, names[i]));
    }
  }

  /** Every name has its row. */
  lemma RowsCover(names: seq<string>, decks: seq<string>)
    ensures forall name :: name in names ==> Deck(name, name, Count(decks, name)) in RowsOf(names, decks)
  {
    var rows := RowsOf(names, decks);
    forall name | name in names ensures Deck(name, name, Count(decks, name)) in rows {
      var i :| 0 <= i < |names| && names[i] == name;
      assert rows[i] == Deck(name, name, Count(decks, name));
    }
  }

  /** Distinct names give rows with distinct names. */
  lemma RowsDistinct(names: seq<string>, decks: seq<string>)
    requires NoDuplicates(names)
    ensures forall i, j :: 0 <= i < j < |RowsOf(names, decks)| ==> RowsOf(names, decks)[i].name != RowsOf(names, decks)[j].name
  {
    var rows := RowsOf(names, decks);
    forall i, j | 0 <= i < j < |rows| ensures rows[i].name != rows[j].name {
      assert rows[i].name == names[i] && rows[j].name == names[j];
    }
  }

  /** The deck rows name each deck of the cards once, and their counts add
      up to the number of cards. */
  lemma DeckRowsSpec(cards: seq<Card>)
    ensures Sum(DeckRows(cards), DeckCount) == |cards|
    ensures forall d :: d in DeckRows(cards) ==> d.id == d.name && d.count == DeckSize(cards, d.name) >= 1
    ensures forall name :: name in DeckOf(cards) ==> Deck(name, name, DeckSize(cards, name)) in DeckRows(cards)
    ensures forall i, j :: 0 <= i < j < |DeckRows(cards)| ==> DeckRows(cards)[i].name != DeckRows(cards)[j].name
  {
    var decks := DeckOf(cards);
    var names := Dedup(decks);
    DedupSpec(decks);
    assert forall i :: 0 <= i < |decks| ==> decks[i] in names;
    RowsTotal(names, decks);
    RowsShape(names, decks);
    RowsCover(names, decks);
    RowsDistinct(names, decks);
    forall d | d in DeckRows(cards) ensures d.count >= 1 {
      assert d.name in decks;
    }
  }

  /** The 'All Decks' row: its count is the number of cards. */
  function AllDeck(cards: seq<Card>): Deck {
    Deck("all", "All Decks", |cards|)
  }

  /** `(a, b) => a.name.localeCompare(b.name)`. */
  function NameOrder(loc: Locale): (Deck, Deck) -> int {
    (a: Deck, b: Deck) => loc.compare(a.name, b.name)
  }

  /** The decks the page shows after loading: 'All Decks' first, then the
      deck rows sorted by name. */
  function LibraryDecks(cards: seq<Card>, loc: Locale): seq<Deck> {
    [AllDeck(cards)] + SortBy(DeckRows(cards), NameOrder(loc))
  }

  /** The 'All Decks' row comes first and counts the cards; the other rows
      are the deck rows in name order, and their counts add up to the same
      number. */
  lemma LibraryDecksSpec(cards: seq<Card>, loc: Locale)
    ensures LibraryDecks(cards, loc)[0] == Deck("all", "All Decks", |cards|)
    ensures multiset(LibraryDecks(cards, loc)[1..]) == multiset(DeckRows(cards))
    ensures Sum(LibraryDecks(cards, loc)[1..], DeckCount) == |cards|
    ensures Consistent(NameOrder(loc)) ==> Sorted(LibraryDecks(cards, loc)[1..], NameOrder(loc))
  {
    var rest := SortBy(DeckRows(cards), NameOrder(loc));
    assert LibraryDecks(cards, loc)[1..] == rest;
    SortPermutes(DeckRows(cards), NameOrder(loc));
    DeckRowsSpec(cards);
    SumPermutation(rest, DeckRows(cards), DeckCount);
    if Consistent(NameOrder(loc)) {
      SortSorts(DeckRows(cards), NameOrder(loc));
    }
  }

  /** `position` maps each key of `cards` to the index of its card. */
  ghost predicate PositionsOk(position: map<string, nat>, cards: seq<Card>) {
    (forall k :: k in position <==> k in Keys(cards))
    && forall k :: k in position ==> position[k] < |cards| && Keys(cards)[position[k]] == k
  }

  /** `deckNames` lists the decks of `cards` in order of first occurrence
      and `deckSizes` counts the cards of each. */
  ghost predicate DeckMapOk(deckNames: seq<string>, deckSizes: map<string, nat>, cards: seq<Card>) {
    deckNames == Dedup(DeckOf(cards))
    && (forall d :: d in deckSizes <==> d in deckNames)
    && forall d :: d in deckSizes ==> deckSizes[d] == DeckSize(cards, d)
  }

  lemma NewKeyStep(position: map<string, nat>, cards: seq<Card>, card: Card)
    requires PositionsOk(position, cards) && CardKey(card) !in position
    ensures PositionsOk(position[CardKey(card) := |cards|], cards + [card])
  {
    KeysSnoc(cards, card);
  }

  lemma DeckNamesStep(deckNames: seq<string>, cards: seq<Card>, card: Card)
    requires deckNames == Dedup(DeckOf(cards))
    ensures Dedup(DeckOf(cards + [card])) == if card.deck in deckNames then deckNames else deckNames + [card.deck]
  {
    DeckOfSnoc(cards, card);
    DedupSnoc(DeckOf(cards), card.deck);
  }

  lemma DeckSizesStep(deckSizes: map<string, nat>, cards: seq<Card>, card: Card, sizes': map<string, nat>)
    requires forall d :: d in deckSizes ==> deckSizes[d] == DeckSize(cards, d)
    requires sizes' == deckSizes[card.deck := if card.deck in deckSizes then deckSizes[card.deck] + 1 else 1]
    requires card.deck !in deckSizes ==> card.deck !in DeckOf(cards)
    ensures forall d :: d in sizes' ==> sizes'[d] == DeckSize(cards + [card], d)
  {
    DeckOfSnoc(cards, card);
    var before := multiset(DeckOf(cards));
    assert multiset(DeckOf(cards + [card])) == before + multiset{card.deck};
    forall d | d in sizes' ensures sizes'[d] == DeckSize(cards + [card], d) {
      if d != card.deck {
        assert d in deckSizes && sizes'[d] == deckSizes[d] == before[d];
      } else if card.deck in deckSizes {
        assert sizes'[d] == deckSizes[d] + 1 == before[d] + 1;
      } else {
        assert before[d] == 0;
      }
    }
  }

  lemma NewDeckStep(deckNames: seq<string>, deckSizes: map<string, nat>, cards: seq<Card>, card: Card,
                    names': seq<string>, sizes': map<string, nat>)
    requires DeckMapOk(deckNames, deckSizes, cards)
    requires names' == if card.deck in deckSizes then deckNames else deckNames + [card.deck]
    requires sizes' == deckSizes[card.deck := if card.deck in deckSizes then deckSizes[card.deck] + 1 else 1]
    ensures DeckMapOk(names', sizes', cards + [card])
  {
    DeckNamesStep(deckNames, cards, card);
    DedupSpec(DeckOf(cards));
    DeckSizesStep(deckSizes, cards, card, sizes');
  }

  lemma DuplicateStep(position: map<string, nat>, deckNames: seq<string>, deckSizes: map<string, nat>,
                      cards: seq<Card>, card: Card)
    requires NoDuplicates(Keys(cards))
    requires PositionsOk(position, cards) && DeckMapOk(deckNames, deckSizes, cards)
    requires CardKey(card) in position
    ensures var j := position[CardKey(card)];
            var cards' := cards[j := cards[j].(tags := Dedup(cards[j].tags + card.tags))];
            cards' == Absorb(cards, card)
            && PositionsOk(position, cards') && DeckMapOk(deckNames, deckSizes, cards')
  {
    var j := position[CardKey(card)];
    var merged := Dedup(cards[j].tags + card.tags);
    var cards' := cards[j := cards[j].(tags := merged)];
    CountDistinct(Keys(cards), j);
    assert FirstIndex(Keys(cards), CardKey(card)) == j;
    KeysIgnoreTags(cards, j, merged);
    DeckOfIgnoresTags(cards, j, merged);
    SameKeysPositions(position, cards, cards');
    SameDecksDeckMap(deckNames, deckSizes, cards, cards');
  }

  lemma SameKeysPositions(position: map<string, nat>, a: seq<Card>, b: seq<Card>)
    requires PositionsOk(position, a) && Keys(a) == Keys(b)
    ensures PositionsOk(position, b)
  {
  }

  lemma SameDecksDeckMap(deckNames: seq<string>, deckSizes: map<string, nat>, a: seq<Card>, b: seq<Card>)
    requires DeckMapOk(deckNames, deckSizes, a) && DeckOf(a) == DeckOf(b)
    ensures DeckMapOk(deckNames, deckSizes, b)
  {
    forall d | d in deckSizes ensures deckSizes[d] == DeckSize(b, d) {
      assert DeckSize(b, d) == DeckSize(a, d);
    }
  }

  /** `Object.keys(deckMap).map(deck => ...)` over the deck map. */
  function RowsFromDeckMap(deckNames: seq<string>, deckSizes: map<string, nat>, ghost cards: seq<Card>): (rows: seq<Deck>)
    requires DeckMapOk(deckNames, deckSizes, cards)
    ensures rows == DeckRows(cards)
  {
    assert forall n :: 0 <= n < |deckNames| ==> deckNames[n] in deckSizes;
    var rows := seq(|deckNames|, n requires 0 <= n < |deckNames| => Deck(deckNames[n], deckNames[n], deckSizes[deckNames[n]]));
    assert rows == DeckRows(cards) by {
      var spec := RowsOf(deckNames, DeckOf(cards));
      assert |rows| == |spec|;
      forall n | 0 <= n < |rows| ensures rows[n] == spec[n] {
        assert deckSizes[deckNames[n]] == DeckSize(cards, deckNames[n]);
      }
    }
    rows
  }

  /** The body of the `forEach` callback, on the two maps: a card with a
      new key is kept and counted in its deck (a deck seen for the first
      time is added to the deck map); a card with a known key merges its tags
      into the kept card. Either way it is one step of `Unique`. */
  method AbsorbCard(cards: seq<Card>, position: map<string, nat>,
                    deckNames: seq<string>, deckSizes: map<string, nat>, card: Card)
    returns (cards': seq<Card>, position': map<string, nat>, names': seq<string>, sizes': map<string, nat>)
    requires NoDuplicates(Keys(cards))
    requires PositionsOk(position, cards) && DeckMapOk(deckNames, deckSizes, cards)
    ensures cards' == Absorb(cards, card) && NoDuplicates(Keys(cards'))
    ensures PositionsOk(position', cards') && DeckMapOk(names', sizes', cards')
  {
    var key := CardKey(card);
    AbsorbKeys(cards, card);
    if key !in position {
      if card.deck !in deckSizes {
        names', sizes' := deckNames + [card.deck], deckSizes[card.deck := 1];
      } else {
        names', sizes' := deckNames, deckSizes[card.deck := deckSizes[card.deck] + 1];
      }
      NewKeyStep(position, cards, card);
      NewDeckStep(deckNames, deckSizes, cards, card, names', sizes');
      position' := position[key := |cards|];
      cards' := cards + [card];
      assert key !in Keys(cards);
    } else {
      var j := position[key];
      assert j < |cards|;
      cards' := cards[j := cards[j].(tags := Dedup(cards[j].tags + card.tags))];
      DuplicateStep(position, deckNames, deckSizes, cards, card);
      position', names', sizes' := position, deckNames, deckSizes;
    }
  }

  /** The mount loop (FlashcardsPage.jsx): a `Map` from content key to the
      kept card, and a deck map from deck name to its cards, whose lengths
      are kept here. It computes the kept cards and the deck rows. */
  method BuildLibrary(stored: seq<Card>) returns (cards: seq<Card>, rows: seq<Deck>)
    ensures cards == Unique(stored)
    ensures rows == DeckRows(cards)
  {
    cards := [];
    var position: map<string, nat> := map[];
    var deckNames: seq<string> := [];
    var deckSizes: map<string, nat> := map[];
    var i := 0;
    while i < |stored|
      invariant 0 <= i <= |stored| && cards == Unique(stored[..i]) && NoDuplicates(Keys(cards))
      invariant PositionsOk(position, cards) && DeckMapOk(deckNames, deckSizes, cards)
    {
      UniqueStep(stored, i);
      cards, position, deckNames, deckSizes := AbsorbCard(cards, position, deckNames, deckSizes, stored[i]);
      i := i + 1;
    }
    assert stored[..i] == stored;
    rows := RowsFromDeckMap(deckNames, deckSizes, cards);
  }

  /** The property names a plain object inherits from `Object.prototype`
      (ECMA-262, with the accessors of its Annex B). Looking one of them up
      in `{}` finds a function or an object, never `undefined`. */
  const INHERITED_NAMES: set<string> := {
    "constructor", "hasOwnProperty", "isPrototypeOf", "propertyIsEnumerable",
    "toLocaleString", "toString", "valueOf", "__defineGetter__", "__defineSetter__",
    "__lookupGetter__", "__lookupSetter__", "__proto__"
  }

  /** Absorbing a card keeps every deck, and adds the card's deck only when
      its key is new. */
  lemma AbsorbDecks(u: seq<Card>, c: Card)
    ensures forall d :: d in DeckOf(u) ==> d in DeckOf(Absorb(u, c))
    ensures forall d :: d in DeckOf(Absorb(u, c)) ==> d in DeckOf(u) || (CardKey(c) !in Keys(u) && d == c.deck)
    ensures CardKey(c) !in Keys(u) ==> c.deck in DeckOf(Absorb(u, c))
  {
    var keys := Keys(u);
    if CardKey(c) in keys {
      var j := FirstIndex(keys, CardKey(c));
      DeckOfIgnoresTags(u, j, Dedup(u[j].tags + c.tags));
    } else {
      DeckOfSnoc(u, c);
    }
  }

  /** A deck of the kept cards of a prefix is a deck of the kept cards of
      the whole. */
  lemma {:induction false} DecksGrow(stored: seq<Card>, i: nat)
    requires i <= |stored|
    ensures forall d :: d in DeckOf(Unique(stored[..i])) ==> d in DeckOf(Unique(stored))
    decreases |stored| - i
  {
    if i < |stored| {
      UniqueStep(stored, i);
      AbsorbDecks(Unique(stored[..i]), stored[i]);
      DecksGrow(stored, i + 1);
    } else {
      assert stored[..i] == stored;
    }
  }

  /** No kept card is in a deck named after an inherited property. */
  ghost predicate NoInheritedDeck(cards: seq<Card>) {
    forall d :: d in DeckOf(cards) ==> d !in INHERITED_NAMES
  }

  /** A card that is a duplicate, or whose deck is not an inherited name,
      keeps the decks clear of inherited names. */
  lemma NoInheritedStep(cards: seq<Card>, position: map<string, nat>, card: Card)
    requires PositionsOk(position, cards) && NoInheritedDeck(cards)
    requires CardKey(card) in position || card.deck !in INHERITED_NAMES
    ensures NoInheritedDeck(Absorb(cards, card))
  {
    AbsorbDecks(cards, card);
  }

  /** A new card in a deck with an inherited name puts that deck among the
      decks of all kept cards. */
  lemma InheritedStep(stored: seq<Card>, i: nat, position: map<string, nat>)
    requires i < |stored| && PositionsOk(position, Unique(stored[..i]))
    requires CardKey(stored[i]) !in position && stored[i].deck in INHERITED_NAMES
    ensures !NoInheritedDeck(Unique(stored))
  {
    NewDeckKept(stored, i, position);
  }

  /** The deck of a card with a new key is a deck of all kept cards. */
  lemma NewDeckKept(stored: seq<Card>, i: nat, position: map<string, nat>)
    requires i < |stored| && PositionsOk(position, Unique(stored[..i]))
    requires CardKey(stored[i]) !in position
    ensures stored[i].deck in DeckOf(Unique(stored))
  {
    NewCardDeck(Unique(stored[..i]), position, stored[i]);
    UniqueStep(stored, i);
    DecksGrow(stored, i + 1);
  }

  lemma NewCardDeck(u: seq<Card>, position: map<string, nat>, c: Card)
    requires PositionsOk(position, u) && CardKey(c) !in position
    ensures c.deck in DeckOf(Absorb(u, c))
  {
    assert CardKey(c) !in Keys(u);
    AbsorbDecks(u, c);
  }

  /** The mount loop as the page writes it, where `deckMap` is a plain
      object: for a deck named after a property of `Object.prototype`,
      `!deckMap[card.deck]` is false before the deck has an array of its
      own, so `deckMap[card.deck].push(card)` throws a `TypeError` and the
      mount effect stops (`ok` false). It fails exactly when a kept card
      has such a deck; otherwise it is `BuildLibrary`. */
  method BuildLibraryAsWritten(stored: seq<Card>) returns (ok: bool, cards: seq<Card>, rows: seq<Deck>)
    ensures ok <==> NoInheritedDeck(Unique(stored))
    ensures ok ==> cards == Unique(stored) && rows == DeckRows(cards)
  {
    cards := [];
    rows := [];
    var position: map<string, nat> := map[];
    var deckNames: seq<string> := [];
    var deckSizes: map<string, nat> := map[];
    var i := 0;
    while i < |stored|
      invariant 0 <= i <= |stored| && cards == Unique(stored[..i]) && NoDuplicates(Keys(cards))
      invariant PositionsOk(position, cards) && DeckMapOk(deckNames, deckSizes, cards)
      invariant NoInheritedDeck(cards)
    {
      var card := stored[i];
      UniqueStep(stored, i);
      if CardKey(card) !in position && card.deck in INHERITED_NAMES {
        InheritedStep(stored, i, position);
        return false, cards, [];
      }
      NoInheritedStep(cards, position, card);
      cards, position, deckNames, deckSizes := AbsorbCard(cards, position, deckNames, deckSizes, card);
      i := i + 1;
    }
    assert stored[..i] == stored;
    rows := RowsFromDeckMap(deckNames, deckSizes, cards);
    ok := true;
  }

  /** A single stored card in a deck named "toString" stops the mount loop
      as written, while `BuildLibrary` keeps the card in its own deck. */
  lemma InheritedDeckNameFails()
    ensures var stored := [Card(1.0, "q", "a", "toString", [])];
            !NoInheritedDeck(Unique(stored))
            && DeckRows(Unique(stored)) == [Deck("toString", "toString", 1)]
  {
    var stored := [Card(1.0, "q", "a", "toString", [])];
    assert stored[..0] == [];
    assert Unique(stored) == stored;
    assert DeckOf(stored) == ["toString"];
    assert "toString" in DeckOf(Unique(stored));
  }

  // ---------------------------------------------------------------------
  // What the page renders
  // ---------------------------------------------------------------------

  /** `text.toLowerCase().includes(query.toLowerCase())`. */
  predicate Mentions(loc: Locale, text: string, query: string) {
    Includes(loc.lower(text), loc.lower(query))
  }

  /** `tags.some(tag => tag.toLowerCase().includes(query.toLowerCase()))`. */
  predicate AnyTagMentions(loc: Locale, tags: seq<string>, query: string) {
    exists i :: 0 <= i < |tags| && Mentions(loc, tags[i], query)
  }

  /** The card filter with 'All Decks' selected: front, back, deck or a
      tag mentions the query. */
  predicate MatchesAnyDeck(loc: Locale, query: string, c: Card) {
    Mentions(loc, c.front, query) || Mentions(loc, c.back, query)
    || Mentions(loc, c.deck, query) || AnyTagMentions(loc, c.tags, query)
  }

  /** The card filter with one deck selected: the card is in it, and front,
      back or a tag mentions the query (the deck name is not searched). */
  predicate MatchesInDeck(loc: Locale, deck: string, query: string, c: Card) {
    c.deck == deck
    && (Mentions(loc, c.front, query) || Mentions(loc, c.back, query) || AnyTagMentions(loc, c.tags, query))
  }

  function CardFilter(loc: Locale, selectedDeck: string, query: string): Card -> bool {
    if selectedDeck == "all" then (c: Card) => MatchesAnyDeck(loc, query, c)
    else (c: Card) => MatchesInDeck(loc, selectedDeck, query, c)
  }

  /** `filteredFlashcards` outside a study session: the cards the filter
      accepts, in their order; one deck selected, only cards of that deck. */
  function FilterCards(cards: seq<Card>, selectedDeck: string, query: string, loc: Locale): (r: seq<Card>)
    ensures IsSubsequence(r, cards)
    ensures selectedDeck != "all" ==> forall i :: 0 <= i < |r| ==> r[i].deck == selectedDeck
    ensures forall c :: c in r <==> c in cards && CardFilter(loc, selectedDeck, query)(c)
  {
    FilterIsSubsequence(cards, CardFilter(loc, selectedDeck, query));
    Filter(cards, CardFilter(loc, selectedDeck, query))
  }

  /** `filteredFlashcards`: an active study session shows its own cards
      and nothing else; otherwise the filtered library. */
  function FilteredFlashcards(session: Option<Session>, cards: seq<Card>, selectedDeck: string,
                              query: string, loc: Locale): (r: seq<Card>)
    ensures session.Some? ==> r == session.value.flashcards
    ensures session.None? ==> IsSubsequence(r, cards) && |r| <= |cards|
  {
    match session
    case Some(s) => s.flashcards
    case None => FilterCards(cards, selectedDeck, query, loc)
  }

  lemma EmptyQueryMentions(loc: Locale, text: string)
    requires loc.lower("") == ""
    ensures Mentions(loc, text, "")
  {
    assert OccursAt(loc.lower(text), "", 0);
  }

  /** With an empty query every card of the selected deck is kept (every
      card, with 'All Decks' selected). */
  lemma EmptyQueryKeepsDeck(cards: seq<Card>, selectedDeck: string, loc: Locale)
    requires loc.lower("") == ""
    ensures selectedDeck == "all" ==> FilterCards(cards, selectedDeck, "", loc) == cards
    ensures selectedDeck != "all" ==>
              FilterCards(cards, selectedDeck, "", loc) == Filter(cards, (c: Card) => c.deck == selectedDeck)
  {
    forall i | 0 <= i < |cards| ensures Mentions(loc, cards[i].front, "") {
      EmptyQueryMentions(loc, cards[i].front);
    }
    if selectedDeck == "all" {
      FilterKeepsAll(cards, CardFilter(loc, selectedDeck, ""));
    } else {
      FilterSame(cards, CardFilter(loc, selectedDeck, ""), (c: Card) => c.deck == selectedDeck);
    }
  }

  /** `filteredDecks`: the decks whose name mentions the query. */
  function FilterDecks(decks: seq<Deck>, query: string, loc: Locale): (r: seq<Deck>)
    ensures IsSubsequence(r, decks)
    ensures forall d :: d in r <==> d in decks && Mentions(loc, d.name, query)
  {
    FilterIsSubsequence(decks, (d: Deck) => Mentions(loc, d.name, query));
    Filter(decks, (d: Deck) => Mentions(loc, d.name, query))
  }

  /** The cards `exportToAnki` writes: all of them for 'All Decks',
      otherwise those of the selected deck. */
  function ExportedCards(cards: seq<Card>, selectedDeck: string): (r: seq<Card>)
    ensures selectedDeck == "all" ==> r == cards
    ensures selectedDeck != "all" ==>
              IsSubsequence(r, cards) && forall c :: c in r <==> c in cards && c.deck == selectedDeck
  {
    if selectedDeck == "all" then cards
    else
      FilterIsSubsequence(cards, (c: Card) => c.deck == selectedDeck);
      Filter(cards, (c: Card) => c.deck == selectedDeck)
  }

  /** One line of the Anki file: front, back and the tags joined by spaces,
      separated by tabs. */
  function AnkiLine(c: Card): string {
    c.front + "\t" + c.back + "\t" + Join(c.tags, " ")
  }

  function AnkiLines(cards: seq<Card>): (r: seq<string>)
    ensures |r| == |cards| && forall i :: 0 <= i < |cards| ==> r[i] == AnkiLine(cards[i])
  {
    seq(|cards|, i requires 0 <= i < |cards| => AnkiLine(cards[i]))
  }

  /** The content string of `exportToAnki`: the lines joined by newlines. */
  function AnkiExport(cards: seq<Card>, selectedDeck: string): string {
    Join(AnkiLines(ExportedCards(cards, selectedDeck)), "\n")
  }

  /** Neither a tab nor a newline occurs in a field of the card. */
  predicate PlainCard(c: Card) {
    '\t' !in c.front && '\t' !in c.back && '\n' !in c.front && '\n' !in c.back
    && forall i :: 0 <= i < |c.tags| ==> '\t' !in c.tags[i] && '\n' !in c.tags[i]
  }

  lemma {:induction false} JoinAvoids(parts: seq<string>, sep: string, x: char)
    requires x !in sep && forall i :: 0 <= i < |parts| ==> x !in parts[i]
    ensures x !in Join(parts, sep)
  {
    if |parts| > 1 {
      JoinAvoids(parts[1..], sep, x);
    }
  }

  /** A line splits back into front, back and tag text at its tabs. */
  lemma AnkiLineFields(c: Card)
    requires PlainCard(c)
    ensures Split(AnkiLine(c), '\t') == [c.front, c.back, Join(c.tags, " ")]
    ensures '\n' !in AnkiLine(c)
  {
    var parts := [c.front, c.back, Join(c.tags, " ")];
    JoinAvoids(c.tags, " ", '\t');
    JoinAvoids(c.tags, " ", '\n');
    assert parts[1..] == [c.back, Join(c.tags, " ")] && parts[1..][1..] == [Join(c.tags, " ")];
    assert Join(parts[1..], "\t") == c.back + "\t" + Join(c.tags, " ");
    assert Join(parts, "\t") == c.front + "\t" + (c.back + "\t" + Join(c.tags, " "));
    assert Join(parts, "\t") == AnkiLine(c);
    SplitJoin(parts, '\t');
  }

  /** The export holds one line per exported card, in order, and each line
      holds the card's front, back and tags, when no field contains a tab
      or a newline. */
  lemma AnkiExportSpec(cards: seq<Card>, selectedDeck: string)
    requires forall i :: 0 <= i < |cards| ==> PlainCard(cards[i])
    requires |ExportedCards(cards, selectedDeck)| >= 1
    ensures Split(AnkiExport(cards, selectedDeck), '\n') == AnkiLines(ExportedCards(cards, selectedDeck))
    ensures forall c :: c in ExportedCards(cards, selectedDeck) ==>
              Split(AnkiLine(c), '\t') == [c.front, c.back, Join(c.tags, " ")]
  {
    var ex := ExportedCards(cards, selectedDeck);
    forall i | 0 <= i < |ex| ensures PlainCard(ex[i]) && '\n' !in AnkiLines(ex)[i] {
      assert ex[i] in cards;
      AnkiLineFields(ex[i]);
    }
    SplitJoin(AnkiLines(ex), '\n');
    forall c | c in ex ensures Split(AnkiLine(c), '\t') == [c.front, c.back, Join(c.tags, " ")] {
      AnkiLineFields(c);
    }
  }

  // ---------------------------------------------------------------------
  // Study cursor
  // ---------------------------------------------------------------------

  /** JavaScript's `%` for a positive divisor: the remainder takes the sign
      of the dividend. */
  function JsRem(a: int, n: int): int
    requires n > 0
  {
    if a >= 0 then a % n else -((-a) % n)
  }

  /** `(currentCardIndex + 1) % filteredFlashcards.length`. */
  function NextIndex(i: int, n: int): int
    requires n > 0
  {
    JsRem(i + 1, n)
  }

  /** `(currentCardIndex - 1 + filteredFlashcards.length) % filteredFlashcards.length`. */
  function PrevIndex(i: int, n: int): int
    requires n > 0
  {
    JsRem(i - 1 + n, n)
  }

  /** The remainder of a dividend below twice the divisor. */
  lemma SmallRem(a: int, n: int)
    requires n > 0 && 0 <= a < 2 * n
    ensures JsRem(a, n) == if a < n then a else a - n
  {
    var q, r := a / n, a % n;
    assert a == n * q + r && 0 <= r < n;
    QuotientBounds(n, q);
    assert q == 0 || q == 1;
  }

  lemma QuotientBounds(n: int, q: int)
    requires n > 0
    ensures q < 0 ==> n * q <= -n
    ensures q >= 2 ==> n * q >= 2 * n
  {
    if q < 0 {
      MulSign(n, -(q + 1));
      assert n * q == -(n * -(q + 1)) - n;
    } else if q >= 2 {
      MulSign(n, q - 2);
      assert n * q == n * (q - 2) + 2 * n;
    }
  }

  lemma {:induction false} MulSign(n: int, k: nat)
    requires n > 0
    ensures n * k >= 0
  {
    if k > 0 {
      MulSign(n, k - 1);
      assert n * k == n * (k - 1) + n;
    }
  }

  /** From a non-negative index both moves land in `[0, n)`; on an index in
      range each undoes the other, and they wrap around at the ends. */
  lemma CursorSpec(i: int, n: int)
    requires n > 0 && i >= 0
    ensures 0 <= NextIndex(i, n) < n && 0 <= PrevIndex(i, n) < n
    ensures i < n ==> PrevIndex(NextIndex(i, n), n) == i && NextIndex(PrevIndex(i, n), n) == i
    ensures NextIndex(n - 1, n) == 0 && PrevIndex(0, n) == n - 1
  {
    SmallRem(n, n);
    SmallRem(n - 1, n);
    if i < n {
      SmallRem(i + 1, n);
      SmallRem(i - 1 + n, n);
      SmallRem(NextIndex(i, n) - 1 + n, n);
      SmallRem(PrevIndex(i, n) + 1, n);
    }
  }

  // ---------------------------------------------------------------------
  // Creating a card
  // ---------------------------------------------------------------------

  /** The create dialog's fields. */
  datatype CardDraft = CardDraft(front: string, back: string, deck: string, tags: seq<string>)

  /** `!newCard.front || !newCard.back || !newCard.deck` rejects. */
  predicate CanCreate(d: CardDraft) {
    d.front != "" && d.back != "" && d.deck != ""
  }

  /** `{ id, ...newCard, tags: newCard.tags || [] }`. */
  function CardFromDraft(id: real, d: CardDraft): (c: Card)
    ensures c.id == id && c.front == d.front && c.back == d.back && c.deck == d.deck && c.tags == d.tags
  {
    Card(id, d.front, d.back, d.deck, d.tags)
  }

  function CountUp(decks: seq<Deck>, name: string): (r: seq<Deck>)
    ensures |r| == |decks|
    ensures forall i :: 0 <= i < |decks| ==>
              r[i] == if decks[i].id == name then decks[i].(count := decks[i].count + 1) else decks[i]
  {
    if decks == [] then [] else
      [if decks[0].id == name then decks[0].(count := decks[0].count + 1) else decks[0]] + CountUp(decks[1..], name)
  }

  predicate HasDeck(decks: seq<Deck>, name: string) {
    exists i :: 0 <= i < |decks| && decks[i].id == name
  }

  /** The deck update of `handleCreateFlashcard`: without a deck of that id
      a new row with count 1 is appended; otherwise every row with that id
      counts one more card. */
  function BumpDecks(decks: seq<Deck>, name: string): seq<Deck> {
    if HasDeck(decks, name) then CountUp(decks, name) else decks + [Deck(name, name, 1)]
  }

  lemma {:induction false} CountUpTotal(decks: seq<Deck>, name: string)
    ensures Sum(CountUp(decks, name), DeckCount)
            == Sum(decks, DeckCount) + |Filter(decks, (d: Deck) => d.id == name)|
  {
    if decks != [] {
      CountUpTotal(decks[1..], name);
    }
  }

  /** After a card is created its deck is listed, the list grows only when
      the deck is new, and the counts in the list grow by one for every row
      with the deck's id (by one in all, for a new deck). A row for another
      deck, 'All Decks' included, keeps its count. */
  lemma BumpDecksSpec(decks: seq<Deck>, name: string)
    ensures HasDeck(BumpDecks(decks, name), name)
    ensures |BumpDecks(decks, name)| == |decks| + (if HasDeck(decks, name) then 0 else 1)
    ensures Sum(BumpDecks(decks, name), DeckCount)
            == Sum(decks, DeckCount) + (if HasDeck(decks, name) then |Filter(decks, (d: Deck) => d.id == name)| else 1)
    ensures forall i :: 0 <= i < |decks| && decks[i].id != name ==> BumpDecks(decks, name)[i] == decks[i]
  {
    var r := BumpDecks(decks, name);
    if HasDeck(decks, name) {
      CountUpTotal(decks, name);
      var i :| 0 <= i < |decks| && decks[i].id == name;
      assert r[i].id == name;
    } else {
      SumConcat(decks, [Deck(name, name, 1)], DeckCount);
      assert r[|decks|].id == name;
    }
  }
}
