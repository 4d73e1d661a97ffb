/** User settings (Models/AppSettings.swift): the polling interval, the
    order of the dashboard cards and the set of hidden cards. The values
    read back from the user defaults at start-up are constructor
    parameters; writing them back in the `didSet` observers is not modelled. */
module AppSettings {
  import opened Wrappers

  /** The dashboard cards, in declaration order. */
  datatype CardType = CPU | Memory | GPU | Network | Disk | NPU | Temperature

  /** `CardType.allCases`. */
  const AllCases: seq<CardType> := [CPU, Memory, GPU, Network, Disk, NPU, Temperature]

  /** The `String` raw value of a card, which is also its identifier. */
  function RawValue(card: CardType): string {
    match card
    case CPU => "CPU"
    case Memory => "Memory"
    case GPU => "GPU"
    case Network => "Network"
    case Disk => "Disk"
    case NPU => "NPU"
    case Temperature => "Temperature"
  }

  /** `CardType(rawValue:)`: the card with that raw value, if any. */
  function FromRaw(raw: string): (r: Option<CardType>)
    ensures r.Some? ==> RawValue(r.value) == raw
  {
    if raw == "CPU" then Some(CPU)
    else if raw == "Memory" then Some(Memory)
    else if raw == "GPU" then Some(GPU)
    else if raw == "Network" then Some(Network)
    else if raw == "Disk" then Some(Disk)
    else if raw == "NPU" then Some(NPU)
    else if raw == "Temperature" then Some(Temperature)
    else None
  }

  /** The SF Symbol shown on a card. */
  function Icon(card: CardType): string {
    match card
    case CPU => "cpu"
    case Memory => "memorychip"
    case GPU => "gpu"
    case Network => "network"
    case Disk => "internaldrive"
    case NPU => "brain"
    case Temperature => "thermometer.medium"
  }

  /** Every card's raw value parses back to that card, so no two cards
      share a raw value, and a string parses exactly when it is a raw value. */
  lemma RawValueRoundTrip(card: CardType, raw: string)
    ensures FromRaw(RawValue(card)) == Some(card)
    ensures FromRaw(raw).Some? <==> exists c: CardType :: RawValue(c) == raw
  {
    if exists c: CardType :: RawValue(c) == raw {
      var c: CardType :| RawValue(c) == raw;
      assert FromRaw(RawValue(c)) == Some(c);
    }
  }

  /** `allCases` lists every card exactly once, and no two cards share an icon. */
  lemma AllCasesListsEachCardOnce(card: CardType, other: CardType)
    ensures card in AllCases
    ensures forall i, j :: 0 <= i < j < |AllCases| ==> AllCases[i] != AllCases[j]
    ensures card != other ==> Icon(card) != Icon(other)
  {
  }

  /** The stored interval when it is positive, otherwise one second (a
      missing default reads as zero). */
  function RestoredInterval(saved: real): (r: real)
    ensures r > 0.0
    ensures saved > 0.0 ==> r == saved
    ensures saved <= 0.0 ==> r == 1.0
  {
    if saved > 0.0 then saved else 1.0
  }

  /** `compactMap { CardType(rawValue: $0) }`: the parseable raw values, in order. */
  function Parsed(saved: seq<string>): (r: seq<CardType>)
    ensures |r| <= |saved|
    ensures forall card :: card in r <==> RawValue(card) in saved
  {
    if saved == [] then []
    else
      var front := Parsed(saved[..|saved| - 1]);
      var last := saved[|saved| - 1];
      assert saved == saved[..|saved| - 1] + [last];
      match FromRaw(last)
      case None =>
        assert forall card :: RawValue(card) != last by {
          forall card ensures RawValue(card) != last {
            RawValueRoundTrip(card, last);
          }
        }
        front
      case Some(card) => front + [card]
  }

  /** The start-up loop over `allCases`: each card the order does not yet
      contain is appended, in declaration order. */
  function Completed(order: seq<CardType>, cases: seq<CardType>): seq<CardType>
    decreases |cases|
  {
    if cases == [] then order
    else
      var before := Completed(order, cases[..|cases| - 1]);
      var card := cases[|cases| - 1];
      if card in before then before else before + [card]
  }

  /** The cards of `cases` that `order` lacks, in the order of `cases`. */
  function MissingFrom(order: seq<CardType>, cases: seq<CardType>): seq<CardType>
    decreases |cases|
  {
    if cases == [] then []
    else
      var before := MissingFrom(order, cases[..|cases| - 1]);
      var card := cases[|cases| - 1];
      if card in order then before else before + [card]
  }

  /** The card order restored at start-up. */
  function RestoredOrder(saved: Option<seq<string>>): seq<CardType> {
    match saved
    case None => AllCases
    case Some(raws) => Completed(Parsed(raws), AllCases)
  }

  /** A hidden set with `raw` removed if present, added otherwise. */
  function Toggled(hidden: set<string>, raw: string): (r: set<string>)
    ensures raw in r <==> raw !in hidden
    ensures forall other :: other != raw ==> (other in r <==> other in hidden)
  {
    if raw in hidden then hidden - {raw} else hidden + {raw}
  }

  /** `isCardVisible`: the card's raw value is not hidden. */
  predicate IsCardVisible(hidden: set<string>, card: CardType) {
    RawValue(card) !in hidden
  }

  /** `visibleCards`: the card order without the hidden cards. */
  function VisibleCards(order: seq<CardType>, hidden: set<string>): seq<CardType> {
    if order == [] then []
    else
      var front := VisibleCards(order[..|order| - 1], hidden);
      var last := order[|order| - 1];
      if IsCardVisible(hidden, last) then front + [last] else front
  }

  /** The elements of `s` at indices in [lo, hi) whose membership in
      `offsets` is `picked`, in order. */
  function Select<T>(s: seq<T>, offsets: set<int>, lo: nat, hi: nat, picked: bool): seq<T>
    requires lo <= hi <= |s|
    decreases hi - lo
  {
    if lo == hi then []
    else (if (lo in offsets) == picked then [s[lo]] else []) + Select(s, offsets, lo + 1, hi, picked)
  }

  /** `move(fromOffsets:toOffset:)`: the elements at `offsets` are taken out,
      keeping their order, and put back before the element that was at
      `destination` (at the end when `destination` is the count). */
  function Moved<T>(s: seq<T>, offsets: set<int>, destination: nat): seq<T>
    requires destination <= |s|
  {
    Select(s, offsets, 0, destination, false) + Select(s, offsets, 0, |s|, true) +
    Select(s, offsets, destination, |s|, false)
  }

  /** The valid arguments of `move`: offsets inside the array, and a
      destination from 0 up to its count. */
  predicate ValidMove(count: nat, offsets: set<int>, destination: int) {
    (forall i :: i in offsets ==> 0 <= i < count) && 0 <= destination <= count
  }

  class AppSettings {
    var pollingInterval: real
    var cardOrder: seq<CardType>
    var hiddenCards: set<string>

    /** `init`, from the values the user defaults hold: the stored interval
        (zero when absent), the stored hidden raw values and the stored
        card order, when present. */
    constructor (savedInterval: real, savedHidden: Option<seq<string>>, savedOrder: Option<seq<string>>)
      ensures pollingInterval == RestoredInterval(savedInterval)
      ensures hiddenCards == (match savedHidden case None => {} case Some(raws) => set raw | raw in raws)
      ensures cardOrder == RestoredOrder(savedOrder)
    {
      pollingInterval := if savedInterval > 0.0 then savedInterval else 1.0;
      match savedHidden {
        case None => hiddenCards := {};
        case Some(raws) => hiddenCards := set raw | raw in raws;
      }
      match savedOrder {
        case None =>
          cardOrder := AllCases;
        case Some(raws) =>
          var order := Parsed(raws);
          for i := 0 to |AllCases|
            invariant order == Completed(Parsed(raws), AllCases[..i])
          {
            assert AllCases[..i + 1][..i] == AllCases[..i];
            if AllCases[i] !in order {
              order := order + [AllCases[i]];
            }
          }
          assert AllCases[..|AllCases|] == AllCases;
          cardOrder := order;
      }
    }

    method MoveCard(offsets: set<int>, destination: int)
      requires ValidMove(|cardOrder|, offsets, destination)
      modifies this`cardOrder
      ensures cardOrder == Moved(old(cardOrder), offsets, destination)
    {
      cardOrder := Moved(cardOrder, offsets, destination);
    }

    method ToggleCard(card: CardType)
      modifies this`hiddenCards
      ensures hiddenCards == Toggled(old(hiddenCards), RawValue(card))
    {
      if RawValue(card) in hiddenCards {
        hiddenCards := hiddenCards - {RawValue(card)};
      } else {
        hiddenCards := hiddenCards + {RawValue(card)};
      }
    }

    method ResetOrder()
      modifies this`cardOrder, this`hiddenCards
      ensures cardOrder == AllCases && hiddenCards == {}
    {
      cardOrder := AllCases;
      hiddenCards := {};
    }
  }

  /** Toggling a card twice restores the hidden set; toggling flips that
      card's visibility and no other card's. */
  lemma ToggleFlipsOneCard(hidden: set<string>, card: CardType, other: CardType)
    ensures Toggled(Toggled(hidden, RawValue(card)), RawValue(card)) == hidden
    ensures IsCardVisible(Toggled(hidden, RawValue(card)), card) <==> !IsCardVisible(hidden, card)
    ensures other != card ==>
      (IsCardVisible(Toggled(hidden, RawValue(card)), other) <==> IsCardVisible(hidden, other))
  {
    RawValueRoundTrip(card, RawValue(card));
    RawValueRoundTrip(other, RawValue(other));
  }

  /** A card is shown exactly when it is in the order and not hidden, and
      no more cards are shown than the order holds. */
  lemma {:induction false} VisibleCardsAreTheUnhidden(order: seq<CardType>, hidden: set<string>)
    ensures |VisibleCards(order, hidden)| <= |order|
    ensures forall card :: card in VisibleCards(order, hidden) <==> card in order && IsCardVisible(hidden, card)
  {
    if order != [] {
      var n := |order| - 1;
      VisibleCardsAreTheUnhidden(order[..n], hidden);
      assert order == order[..n] + [order[n]];
    }
  }

  /** The visible cards of two runs of the order are those of each, one
      after the other: the filter keeps the order of the cards. */
  lemma {:induction false} VisibleCardsOfConcatenation(a: seq<CardType>, b: seq<CardType>, hidden: set<string>)
    ensures VisibleCards(a + b, hidden) == VisibleCards(a, hidden) + VisibleCards(b, hidden)
    decreases |b|
  {
    if b == [] {
      assert a + b == a;
    } else {
      var n := |b| - 1;
      var ab := a + b;
      VisibleCardsOfConcatenation(a, b[..n], hidden);
      assert ab[..|ab| - 1] == a + b[..n];
      assert ab[|ab| - 1] == b[n];
      var shown := if IsCardVisible(hidden, b[n]) then [b[n]] else [];
      assert VisibleCards(ab, hidden) == VisibleCards(a + b[..n], hidden) + shown;
      assert VisibleCards(b, hidden) == VisibleCards(b[..n], hidden) + shown;
      assert VisibleCards(a, hidden) + VisibleCards(b[..n], hidden) + shown ==
        VisibleCards(a, hidden) + (VisibleCards(b[..n], hidden) + shown);
    }
  }

  /** Nothing hidden: every card of the order is shown, in that order. */
  lemma {:induction false} NothingHiddenShowsAll(order: seq<CardType>)
    ensures VisibleCards(order, {}) == order
  {
    if order != [] {
      NothingHiddenShowsAll(order[..|order| - 1]);
      assert order == order[..|order| - 1] + [order[|order| - 1]];
    }
  }

  /** The start-up loop leaves the order it starts from as a prefix and
      appends exactly the missing cases, in declaration order, provided
      the cases are distinct. */
  lemma {:induction false} CompletedAppendsMissing(order: seq<CardType>, cases: seq<CardType>)
    requires forall i, j :: 0 <= i < j < |cases| ==> cases[i] != cases[j]
    ensures Completed(order, cases) == order + MissingFrom(order, cases)
    decreases |cases|
  {
    if cases != [] {
      var n := |cases| - 1;
      var front, card := cases[..n], cases[n];
      var missing := MissingFrom(order, front);
      assert forall i, j :: 0 <= i < j < |front| ==> front[i] != front[j] by {
        forall i, j | 0 <= i < j < |front| ensures front[i] != front[j] {
          assert front[i] == cases[i] && front[j] == cases[j];
        }
      }
      CompletedAppendsMissing(order, front);
      assert card !in missing by {
        MissingAreFromCases(order, front);
        forall i | 0 <= i < |front| ensures front[i] != card {
          assert front[i] == cases[i];
        }
      }
      assert Completed(order, cases) == if card in order + missing then order + missing else order + missing + [card];
      assert MissingFrom(order, cases) == if card in order then missing else missing + [card];
      if card !in order {
        assert order + missing + [card] == order + (missing + [card]);
      }
    }
  }

  /** The missing cards come from `cases` and are not in `order`. */
  lemma {:induction false} MissingAreFromCases(order: seq<CardType>, cases: seq<CardType>)
    ensures forall card :: card in MissingFrom(order, cases) <==> card in cases && card !in order
    decreases |cases|
  {
    if cases != [] {
      var n := |cases| - 1;
      MissingAreFromCases(order, cases[..n]);
      assert cases == cases[..n] + [cases[n]];
    }
  }

  /** After start-up every card is in the order: with no stored order it is
      `allCases`; otherwise it is the parseable stored values, in their
      stored order, followed by each missing card in declaration order. */
  lemma RestoredOrderHasEveryCard(saved: Option<seq<string>>, card: CardType)
    ensures card in RestoredOrder(saved)
    ensures saved.None? ==> RestoredOrder(saved) == AllCases
    ensures saved.Some? ==> RestoredOrder(saved) == Parsed(saved.value) + MissingFrom(Parsed(saved.value), AllCases)
  {
    AllCasesListsEachCardOnce(card, card);
    if saved.Some? {
      var parsed := Parsed(saved.value);
      CompletedAppendsMissing(parsed, AllCases);
      MissingAreFromCases(parsed, AllCases);
    }
  }

  /** `Select` over [lo, hi) splits at any `mid` between them. */
  lemma {:induction false} SelectSplits<T>(s: seq<T>, offsets: set<int>, lo: nat, mid: nat, hi: nat, picked: bool)
    requires lo <= mid <= hi <= |s|
    ensures Select(s, offsets, lo, hi, picked) == Select(s, offsets, lo, mid, picked) + Select(s, offsets, mid, hi, picked)
    decreases mid - lo
  {
    if lo < mid {
      SelectSplits(s, offsets, lo + 1, mid, hi, picked);
    }
  }

  /** The picked and the unpicked elements of [lo, hi) together are the
      elements of `s[lo..hi]`. */
  lemma {:induction false} SelectPartitions<T>(s: seq<T>, offsets: set<int>, lo: nat, hi: nat)
    requires lo <= hi <= |s|
    ensures multiset(Select(s, offsets, lo, hi, true)) + multiset(Select(s, offsets, lo, hi, false)) == multiset(s[lo..hi])
    decreases hi - lo
  {
    if lo < hi {
      SelectPartitions(s, offsets, lo + 1, hi);
      assert s[lo..hi] == [s[lo]] + s[lo + 1..hi];
    }
  }

  /** Moving cards only reorders them: every card stays and none is added. */
  lemma MovePermutes<T>(s: seq<T>, offsets: set<int>, destination: nat)
    requires ValidMove(|s|, offsets, destination)
    ensures multiset(Moved(s, offsets, destination)) == multiset(s)
    ensures |Moved(s, offsets, destination)| == |s|
  {
    var before := Select(s, offsets, 0, destination, false);
    var picked := Select(s, offsets, 0, |s|, true);
    var after := Select(s, offsets, destination, |s|, false);
    SelectSplits(s, offsets, 0, destination, |s|, false);
    SelectPartitions(s, offsets, 0, |s|);
    assert s[0..|s|] == s;
    calc {
      multiset(Moved(s, offsets, destination));
      multiset(before + picked + after);
      multiset(before) + multiset(picked) + multiset(after);
      multiset(picked) + multiset(before + after);
      multiset(s);
    }
    assert |multiset(Moved(s, offsets, destination))| == |Moved(s, offsets, destination)|;
  }

  /** Moving no card, to any destination, leaves the order as it was. */
  lemma MovingNothingKeepsOrder<T>(s: seq<T>, destination: nat)
    requires destination <= |s|
    ensures Moved(s, {}, destination) == s
  {
    NothingSelected(s, 0, |s|);
    NothingSelected(s, 0, destination);
    NothingSelected(s, destination, |s|);
    assert s[0..destination] + s[destination..|s|] == s;
  }

  /** With no offsets, nothing is picked and everything is kept. */
  lemma {:induction false} NothingSelected<T>(s: seq<T>, lo: nat, hi: nat)
    requires lo <= hi <= |s|
    ensures Select(s, {}, lo, hi, true) == [] && Select(s, {}, lo, hi, false) == s[lo..hi]
    decreases hi - lo
  {
    if lo < hi {
      NothingSelected(s, lo + 1, hi);
      assert s[lo..hi] == [s[lo]] + s[lo + 1..hi];
    }
  }

  /** Resetting shows every card in declaration order. */
  lemma ResetShowsAllCases()
    ensures VisibleCards(AllCases, {}) == AllCases
  {
    NothingHiddenShowsAll(AllCases);
  }
}
