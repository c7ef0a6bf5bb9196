/** The emergency number list: a rewriter of the two SIM properties and the lookup that reads them
    (emergency numbers of section 10.1.1 of 3GPP TS 22.101). */
module EccList {
  import opened Options
  import opened CommaText
  import opened JavaText

  const ECC_NO_SIM := "0"

  const ECC_FOR_MMI := "2"

  datatype Entry = Entry(ecc: string, category: string, condition: string)

  // Java's removeAll
  function Minus(a: seq<string>, b: seq<string>): (r: seq<string>)
    ensures forall x :: x in r <==> x in a && x !in b
  {
    if a == [] then []
    else (if a[0] in b then [] else [a[0]]) + Minus(a[1..], b)
  }

  // ----- the rewriter -----

  // customized numbers that hold with a SIM, and those for no SIM only
  function Fixed(entries: seq<Entry>): seq<string> {
    if entries == [] then []
    else Fixed(entries[..|entries| - 1]) +
         (var e := entries[|entries| - 1]; if e.condition != ECC_NO_SIM then [e.ecc] else [])
  }

  function NoSim(entries: seq<Entry>): seq<string> {
    if entries == [] then []
    else NoSim(entries[..|entries| - 1]) +
         (var e := entries[|entries| - 1]; if e.condition == ECC_NO_SIM && e.ecc != "" then [e.ecc] else [])
  }

  // the numbers a property lists
  function Listed(slot: string): seq<string> {
    Minus(Split(slot, ','), [""])
  }

  function Merged(slot: string, entries: seq<Entry>): seq<string> {
    var all := Minus(Listed(slot), Fixed(entries)) + Fixed(entries);
    if slot == "" then Minus(all, NoSim(entries)) + NoSim(entries) else all
  }

  function Refreshed(slot: string, entries: seq<Entry>): string {
    Join(Merged(slot, entries))
  }

  // ----- the lookup -----

  predicate Hit(ecc: string, number: string) {
    number == ecc || number == ecc + "+"
  }

  predicate HitIn(list: seq<string>, number: string) {
    exists i :: 0 <= i < |list| && Hit(list[i], number)
  }

  predicate HitAny(numbers: set<string>, number: string) {
    exists k :: k in numbers && Hit(k, number)
  }

  predicate InSlot(slot: string, number: string) {
    slot != "" && HitIn(Split(slot, ','), number)
  }

  function Customized(entries: seq<Entry>, inserted: bool): seq<string> {
    if entries == [] then []
    else Customized(entries[..|entries| - 1], inserted) +
         (var e := entries[|entries| - 1]; if inserted && e.condition == ECC_NO_SIM then [] else [e.ecc])
  }

  // the numbers and categories of ril.ecc.service.category.list, in which a later entry replaces an earlier one;
  // None is the exception for a category that is no integer
  function NetworkOf(pieces: seq<string>): Option<map<string, int>> {
    if pieces == [] then Some(map[])
    else
      match NetworkOf(pieces[..|pieces| - 1])
      case None => None
      case Some(m) => WithPiece(m, pieces[|pieces| - 1])
  }

  // a piece is a number and its category
  function WithPiece(m: map<string, int>, piece: string): Option<map<string, int>> {
    var entry := Split(piece, ',');
    if piece == "" || |entry| != 2 then Some(m)
    else
      match IntegerOf(entry[1])
      case None => None
      case Some(category) => Some(m[entry[0] := category])
  }

  function NetworkList(property: string): Option<map<string, int>> {
    if property == "" then Some(map[]) else NetworkOf(Split(property, ';'))
  }

  datatype Slots = Slots(sim1: string, sim2: string)

  predicate Accepts(network: set<string>, slots: Slots, entries: seq<Entry>, number: string) {
    || HitAny(network, number) || InSlot(slots.sim1, number) || InSlot(slots.sim2, number)
    || HitIn(Customized(entries, slots.sim1 != "" || slots.sim2 != ""), number)
  }

  function RefreshedSlots(slots: Slots, entries: seq<Entry>): Slots {
    Slots(Refreshed(slots.sim1, entries), Refreshed(slots.sim2, entries))
  }

  // ----- lists of numbers -----

  // numbers a property can carry
  predicate Proper(list: seq<string>) {
    forall x :: x in list ==> x != "" && ',' !in x
  }

  predicate ProperEntries(entries: seq<Entry>) {
    forall i :: 0 <= i < |entries| ==> entries[i].ecc != "" && ',' !in entries[i].ecc
  }

  lemma {:induction false} MinusConcat(a: seq<string>, b: seq<string>, c: seq<string>)
    ensures Minus(a + b, c) == Minus(a, c) + Minus(b, c)
  {
    if a == [] {
      assert a + b == b;
    } else {
      assert (a + b)[1..] == a[1..] + b;
      MinusConcat(a[1..], b, c);
      var first := if a[0] in c then [] else [a[0]];
      Reassociate(first, Minus(a[1..], c), Minus(b, c));
    }
  }

  lemma {:induction false} MinusOneMore(list: seq<string>, i: nat)
    requires i < |list|
    ensures Minus(list[..i + 1], [""]) == Minus(list[..i], [""]) + (if list[i] != "" then [list[i]] else [])
  {
    assert list[..i + 1] == list[..i] + [list[i]];
    MinusConcat(list[..i], [list[i]], [""]);
    assert [list[i]][1..] == [];
  }

  lemma {:induction false} Reassociate(a: seq<string>, b: seq<string>, c: seq<string>)
    ensures a + (b + c) == (a + b) + c
  {
  }

  lemma {:induction false} MinusDisjoint(a: seq<string>, b: seq<string>)
    requires forall x :: x in a ==> x !in b
    ensures Minus(a, b) == a
  {
    if a == [] {
    } else {
      assert a[0] in a;
      MinusDisjoint(a[1..], b);
    }
  }

  lemma {:induction false} MinusAll(a: seq<string>, b: seq<string>)
    requires forall x :: x in a ==> x in b
    ensures Minus(a, b) == []
  {
    if a == [] {
    } else {
      assert a[0] in a;
      MinusAll(a[1..], b);
    }
  }

  // removing and appending a list twice is doing so once
  lemma {:induction false} MergeTwice(a: seq<string>, b: seq<string>)
    ensures Minus(Minus(a, b) + b, b) == Minus(a, b)
  {
    MinusConcat(Minus(a, b), b, b);
    MinusDisjoint(Minus(a, b), b);
    MinusAll(b, b);
  }

  lemma {:induction false} EntryLists(entries: seq<Entry>)
    requires ProperEntries(entries)
    ensures Proper(Fixed(entries)) && Proper(NoSim(entries))
    ensures Customized(entries, true) == Fixed(entries)
    ensures forall x :: x in Customized(entries, false) <==> x in Fixed(entries) || x in NoSim(entries)
  {
    if entries == [] {
    } else {
      EntryLists(entries[..|entries| - 1]);
    }
  }

  lemma {:induction false} PiecesHaveNoComma(s: string)
    ensures CommaFree(Pieces(s, ','))
    decreases |s|
  {
    if ',' !in s {
    } else {
      PiecesHaveNoComma(s[IndexOf(s, ',') + 1..]);
    }
  }

  lemma {:induction false} TrailingOnly(pieces: seq<string>)
    ensures WithoutTrailingEmpty(pieces) <= pieces
  {
    if pieces == [] || pieces[|pieces| - 1] != "" {
    } else {
      TrailingOnly(pieces[..|pieces| - 1]);
    }
  }

  lemma {:induction false} ListedIsProper(slot: string)
    ensures Proper(Listed(slot))
  {
    PiecesHaveNoComma(slot);
    TrailingOnly(Pieces(slot, ','));
  }

  lemma {:induction false} FirstPiece(first: string, tail: string)
    requires ',' !in first
    ensures Pieces(first + "," + tail, ',') == [first] + Pieces(tail, ',')
  {
    var s := first + "," + tail;
    assert s[|first|] == ',' && s[..|first|] == first && s[|first| + 1..] == tail;
    CommaIs(s, |first|);
  }

  lemma {:induction false} PiecesOfJoin(list: seq<string>)
    requires list != [] && CommaFree(list)
    ensures Pieces(Join(list), ',') == list
    decreases |list|
  {
    var first, rest := list[0], list[1..];
    assert first in list;
    if rest == [] {
    } else {
      PiecesOfJoin(rest);
      FirstPiece(first, Join(rest));
      assert [first] + rest == list;
    }
  }

  lemma {:induction false} CommaIs(s: string, k: nat)
    requires k < |s| && s[k] == ',' && ',' !in s[..k]
    ensures IndexOf(s, ',') == k
  {
  }

  /** What the rewriter joins, the lookup splits back. */
  lemma {:induction false} SplitOfJoin(list: seq<string>)
    requires Proper(list)
    ensures Join(list) == "" <==> list == []
    ensures list != [] ==> Split(Join(list), ',') == list
  {
    if list == [] {
    } else {
      assert list[0] in list && list[|list| - 1] in list;
      PiecesOfJoin(list);
    }
  }

  lemma {:induction false} MergedIsProper(slot: string, entries: seq<Entry>)
    requires ProperEntries(entries)
    ensures Proper(Merged(slot, entries))
  {
    EntryLists(entries);
    ListedIsProper(slot);
  }

  // membership decides a lookup
  lemma {:induction false} HitForm(list: seq<string>, number: string)
    ensures HitIn(list, number) <==>
            number in list || (number != "" && number[|number| - 1] == '+' && number[..|number| - 1] in list)
  {
  }

  lemma {:induction false} HitAnyForm(numbers: set<string>, number: string)
    ensures HitAny(numbers, number) <==>
            number in numbers || (number != "" && number[|number| - 1] == '+' && number[..|number| - 1] in numbers)
  {
    assert forall k :: Hit(k, number) ==> k == number || k == number[..|number| - 1];
    if number in numbers {
      assert Hit(number, number);
    }
    if number != "" && number[|number| - 1] == '+' && number[..|number| - 1] in numbers {
      assert number == number[..|number| - 1] + "+";
      assert Hit(number[..|number| - 1], number);
    }
  }

  lemma {:induction false} HitSame(a: seq<string>, b: seq<string>, c: seq<string>, number: string)
    requires forall x :: x in a <==> x in b || x in c
    ensures HitIn(a, number) <==> HitIn(b, number) || HitIn(c, number)
  {
    HitForm(a, number);
    HitForm(b, number);
    HitForm(c, number);
  }

  // ----- what a refresh does to the accepted numbers -----

  // whether the no-SIM numbers are accepted after the refresh
  predicate Widened(slots: Slots, entries: seq<Entry>) {
    || slots.sim1 == "" || slots.sim2 == ""
    || (Fixed(entries) == [] && Listed(slots.sim1) == [] && Listed(slots.sim2) == [])
  }

  // a refreshed slot accepts what it listed, the fixed numbers, and the no-SIM ones if it was empty
  lemma {:induction false} RefreshedSlot(slot: string, entries: seq<Entry>, number: string)
    requires ProperEntries(entries)
    ensures InSlot(Refreshed(slot, entries), number) <==>
            || HitIn(Listed(slot), number) || HitIn(Fixed(entries), number)
            || (slot == "" && HitIn(NoSim(entries), number))
  {
    var list := Merged(slot, entries);
    MergedIsProper(slot, entries);
    SplitOfJoin(list);
    var sim := Minus(Listed(slot), Fixed(entries)) + Fixed(entries);
    HitSame(sim, Listed(slot), Fixed(entries), number);
    if slot == "" {
      HitSame(list, sim, NoSim(entries), number);
    }
  }

  // whether a number the slot accepts comes from a non-empty piece
  lemma {:induction false} SlotHits(slot: string, number: string)
    ensures InSlot(slot, number) <==>
            HitIn(Listed(slot), number) || (slot != "" && "" in Split(slot, ',') && (number == "" || number == "+"))
  {
    HitForm(Split(slot, ','), number);
    HitForm(Listed(slot), number);
    if slot == "" {
      assert Split(slot, ',') == [""];
    }
    if number == "+" {
      assert number[..|number| - 1] == "";
    } else if number != "" && number[|number| - 1] == '+' {
      assert number == number[..|number| - 1] + "+";
      assert number[..|number| - 1] != "";
    }
  }

  /** The numbers accepted after a refresh, in terms of the properties before it. */
  lemma {:induction false} AcceptedAfterRefresh(network: set<string>, slots: Slots, entries: seq<Entry>, number: string)
    requires ProperEntries(entries)
    ensures Accepts(network, RefreshedSlots(slots, entries), entries, number) <==>
            || HitAny(network, number) || HitIn(Listed(slots.sim1), number) || HitIn(Listed(slots.sim2), number)
            || HitIn(Fixed(entries), number) || (Widened(slots, entries) && HitIn(NoSim(entries), number))
  {
    EntryLists(entries);
    RefreshedSlot(slots.sim1, entries, number);
    RefreshedSlot(slots.sim2, entries, number);
    HitSame(Customized(entries, false), Fixed(entries), NoSim(entries), number);
    MergedIsProper(slots.sim1, entries);
    MergedIsProper(slots.sim2, entries);
    SplitOfJoin(Merged(slots.sim1, entries));
    SplitOfJoin(Merged(slots.sim2, entries));
    MergedEmpty(slots.sim1, entries);
    MergedEmpty(slots.sim2, entries);
  }

  lemma {:induction false} MergedEmpty(slot: string, entries: seq<Entry>)
    ensures Merged(slot, entries) == [] <==>
            Listed(slot) == [] && Fixed(entries) == [] && (slot == "" ==> NoSim(entries) == [])
  {
  }

  // a property with an empty piece in front of some number
  predicate HasEmptyPiece(slot: string) {
    slot != "" && "" in Split(slot, ',')
  }

  predicate AnyEmptyPiece(slots: Slots) {
    HasEmptyPiece(slots.sim1) || HasEmptyPiece(slots.sim2)
  }

  /** A refresh adds exactly the no-SIM numbers, and those only if a slot was empty or nothing at all is listed.
      It takes away nothing unless a property has an empty piece: then it takes away "" and "+". */
  lemma {:induction false} RefreshGrowsByNoSim(network: set<string>, slots: Slots, entries: seq<Entry>, number: string)
    requires ProperEntries(entries)
    requires !AnyEmptyPiece(slots) || (number != "" && number != "+")
    ensures Accepts(network, RefreshedSlots(slots, entries), entries, number) <==>
            || Accepts(network, slots, entries, number)
            || (Widened(slots, entries) && HitIn(NoSim(entries), number))
  {
    AcceptedAfterRefresh(network, slots, entries, number);
    EntryLists(entries);
    SlotHits(slots.sim1, number);
    SlotHits(slots.sim2, number);
    HitSame(Customized(entries, false), Fixed(entries), NoSim(entries), number);
  }

  /** With both slots empty, or both listing something, the accepted numbers stay the same. */
  lemma {:induction false} RefreshKeepsAccepted(network: set<string>, slots: Slots, entries: seq<Entry>, number: string)
    requires ProperEntries(entries) && !AnyEmptyPiece(slots)
    requires if slots.sim1 == "" then slots.sim2 == ""
             else slots.sim2 != "" && (Listed(slots.sim1) != [] || Listed(slots.sim2) != [] || Fixed(entries) != [])
    ensures Accepts(network, RefreshedSlots(slots, entries), entries, number) <==>
            Accepts(network, slots, entries, number)
  {
    RefreshGrowsByNoSim(network, slots, entries, number);
    EntryLists(entries);
    HitSame(Customized(entries, false), Fixed(entries), NoSim(entries), number);
  }

  ghost predicate NothingLost(network: set<string>, slots: Slots, entries: seq<Entry>) {
    forall number :: Accepts(network, slots, entries, number) ==>
                       Accepts(network, RefreshedSlots(slots, entries), entries, number)
  }

  /** A refresh never makes the lookup reject a number it accepted, exactly if no property has an empty piece in
      front of a number or the network lists the empty number. */
  lemma {:induction false} RefreshLosesNothing(network: set<string>, slots: Slots, entries: seq<Entry>)
    requires ProperEntries(entries)
    ensures NothingLost(network, slots, entries) <==> !AnyEmptyPiece(slots) || "" in network
  {
    EntryLists(entries);
    if !AnyEmptyPiece(slots) || "" in network {
      forall number | Accepts(network, slots, entries, number)
        ensures Accepts(network, RefreshedSlots(slots, entries), entries, number)
      {
        HitAnyForm(network, number);
        if AnyEmptyPiece(slots) && (number == "" || number == "+") {
          assert "+"[..0] == "";
          AcceptedAfterRefresh(network, slots, entries, number);
        } else {
          RefreshGrowsByNoSim(network, slots, entries, number);
        }
      }
    } else {
      ListedIsProper(slots.sim1);
      ListedIsProper(slots.sim2);
      SlotHits(slots.sim1, "");
      SlotHits(slots.sim2, "");
      assert Accepts(network, slots, entries, "");
      HitAnyForm(network, "");
      HitForm(Listed(slots.sim1), "");
      HitForm(Listed(slots.sim2), "");
      HitForm(Fixed(entries), "");
      HitForm(NoSim(entries), "");
      AcceptedAfterRefresh(network, slots, entries, "");
    }
  }

  // ----- repeating the refresh -----

  // a property of nothing but commas is wiped by the first refresh and filled by the second
  predicate OnlyCommas(slot: string, entries: seq<Entry>) {
    slot != "" && Listed(slot) == [] && Fixed(entries) == [] && NoSim(entries) != []
  }

  lemma {:induction false} MergedAgain(slot: string, entries: seq<Entry>)
    requires ProperEntries(entries)
    ensures Merged(Refreshed(slot, entries), entries) ==
            (if Merged(slot, entries) == [] then Minus(Fixed(entries), NoSim(entries)) + NoSim(entries)
             else Minus(Merged(slot, entries), Fixed(entries)) + Fixed(entries))
  {
    var list, fixed := Merged(slot, entries), Fixed(entries);
    MergedIsProper(slot, entries);
    SplitOfJoin(list);
    if list == [] {
      assert Listed("") == [] && Minus([], fixed) + fixed == fixed;
    } else {
      MinusDisjoint(list, [""]);
    }
  }

  // from a slot that was not empty, the second refresh finds the list already merged
  lemma {:induction false} MergedOnce(slot: string, entries: seq<Entry>)
    requires ProperEntries(entries) && slot != "" && !OnlyCommas(slot, entries)
    ensures Merged(Refreshed(slot, entries), entries) == Merged(slot, entries)
  {
    MergedAgain(slot, entries);
    MergedEmpty(slot, entries);
    MergeTwice(Listed(slot), Fixed(entries));
    if Merged(slot, entries) == [] {
      assert Minus([], NoSim(entries)) == [];
    }
  }

  // the list ends with the other one, whose numbers appear nowhere else in it
  predicate EndsWith(list: seq<string>, other: seq<string>) {
    list == Minus(list, other) + other
  }

  // the second refresh of an empty slot moves the fixed numbers behind the no-SIM ones
  predicate Settled(slot: string, entries: seq<Entry>) {
    if slot == "" then EndsWith(NoSim(entries), Fixed(entries)) || EndsWith(Fixed(entries), NoSim(entries))
    else !OnlyCommas(slot, entries)
  }

  /** The second refresh gives the very same string, exactly if an empty slot is filled from lists one of which ends
      with the other, as an empty one does, and another slot is not a property of nothing but commas, which comes back
      as the no-SIM numbers if there are no others. */
  lemma {:induction false} SecondRefresh(slot: string, entries: seq<Entry>)
    requires ProperEntries(entries)
    ensures Refreshed(Refreshed(slot, entries), entries) == Refreshed(slot, entries) <==> Settled(slot, entries)
  {
    if slot == "" {
      SecondOfEmptySlot(entries);
    } else if OnlyCommas(slot, entries) {
      MergedEmpty(slot, entries);
      MergedAgain(slot, entries);
      EntryLists(entries);
      SplitOfJoin(NoSim(entries));
      assert Minus([], NoSim(entries)) + NoSim(entries) == NoSim(entries);
    } else {
      MergedOnce(slot, entries);
    }
  }

  lemma {:induction false} SecondOfEmptySlot(entries: seq<Entry>)
    requires ProperEntries(entries)
    ensures Refreshed(Refreshed("", entries), entries) == Refreshed("", entries) <==> Settled("", entries)
  {
    var fixed, noSim := Fixed(entries), NoSim(entries);
    var first, second := Merged("", entries), Merged(Refreshed("", entries), entries);
    MergedIsProper("", entries);
    MergedIsProper(Refreshed("", entries), entries);
    SplitOfJoin(first);
    SplitOfJoin(second);
    FilledSlot(entries);
    WhichEnd(fixed, noSim);
  }

  lemma {:induction false} FilledSlot(entries: seq<Entry>)
    requires ProperEntries(entries)
    ensures Merged("", entries) == Minus(Fixed(entries), NoSim(entries)) + NoSim(entries)
    ensures Merged(Refreshed("", entries), entries) == Minus(NoSim(entries), Fixed(entries)) + Fixed(entries)
  {
    var fixed, noSim := Fixed(entries), NoSim(entries);
    assert Listed("") == [] && Minus([], fixed) + fixed == fixed;
    MergedAgain("", entries);
    if Merged("", entries) == [] {
      assert fixed == [] && noSim == [];
    } else {
      MinusConcat(Minus(fixed, noSim), noSim, fixed);
      MinusSubset(Minus(fixed, noSim), fixed);
      assert [] + Minus(noSim, fixed) == Minus(noSim, fixed);
    }
  }

  lemma {:induction false} MinusSubset(a: seq<string>, b: seq<string>)
    requires forall x :: x in a ==> x in b
    ensures Minus(a, b) == []
  {
    if Minus(a, b) != [] {
      assert Minus(a, b)[0] in Minus(a, b);
    }
  }

  lemma {:induction false} WhichEnd(a: seq<string>, b: seq<string>)
    ensures Minus(a, b) + b == Minus(b, a) + a <==> EndsWith(b, a) || EndsWith(a, b)
  {
    var a1, b1 := Minus(a, b), Minus(b, a);
    if EndsWith(b, a) {
      MinusSubset(a, b);
    } else if EndsWith(a, b) {
      MinusSubset(b, a);
    } else if a1 == [] {
      assert a1 + b == b;
    } else if b1 == [] {
      assert b1 + a == a;
    } else {
      assert (a1 + b)[0] == a1[0] && (b1 + a)[0] == b1[0];
      assert a1[0] in a1 && b1[0] in b1;
    }
  }

  /** From the second refresh on the string never changes again. */
  lemma {:induction false} ThirdRefresh(slot: string, entries: seq<Entry>)
    requires ProperEntries(entries)
    ensures var second := Refreshed(Refreshed(slot, entries), entries); Refreshed(second, entries) == second
  {
    var first := Refreshed(slot, entries);
    MergedIsProper(slot, entries);
    SplitOfJoin(Merged(slot, entries));
    if first != "" {
      ListedOfRefreshed(slot, entries);
      MergedOnce(first, entries);
    } else {
      MergedEmpty(slot, entries);
      RefreshedFromNothing(entries);
    }
  }

  lemma {:induction false} RefreshedFromNothing(entries: seq<Entry>)
    requires ProperEntries(entries) && Fixed(entries) == []
    ensures Refreshed(Refreshed("", entries), entries) == Refreshed("", entries)
  {
    var list := Merged("", entries);
    MergedAgain("", entries);
    MergedIsProper("", entries);
    SplitOfJoin(list);
    MinusDisjoint(list, []);
    assert Minus(list, []) + [] == list;
  }

  ghost predicate SameNumbers(a: seq<string>, b: seq<string>) {
    forall x :: x in a <==> x in b
  }

  /** Repeating the refresh keeps the numbers a slot lists, except for the property of nothing but commas. */
  lemma {:induction false} SecondRefreshKeepsNumbers(slot: string, entries: seq<Entry>)
    requires ProperEntries(entries)
    ensures SameNumbers(Listed(Refreshed(Refreshed(slot, entries), entries)), Listed(Refreshed(slot, entries)))
       <==> !OnlyCommas(slot, entries)
  {
    ListedOfRefreshed(slot, entries);
    ListedOfRefreshed(Refreshed(slot, entries), entries);
    if slot == "" {
      SecondOfEmpty(entries);
    } else if OnlyCommas(slot, entries) {
      SecondOfCommas(slot, entries);
    } else {
      MergedOnce(slot, entries);
    }
  }

  // only the order can change
  lemma {:induction false} SecondOfEmpty(entries: seq<Entry>)
    requires ProperEntries(entries)
    ensures SameNumbers(Merged(Refreshed("", entries), entries), Merged("", entries))
  {
    MergedAgain("", entries);
    MergedEmpty("", entries);
    FixedInMerged("", entries);
  }

  lemma {:induction false} FixedInMerged(slot: string, entries: seq<Entry>)
    ensures forall x :: x in Fixed(entries) ==> x in Merged(slot, entries)
  {
  }

  lemma {:induction false} SecondOfCommas(slot: string, entries: seq<Entry>)
    requires ProperEntries(entries) && OnlyCommas(slot, entries)
    ensures !SameNumbers(Merged(Refreshed(slot, entries), entries), Merged(slot, entries))
  {
    MergedAgain(slot, entries);
    MergedEmpty(slot, entries);
    var number := NoSim(entries)[0];
    assert number in Merged(Refreshed(slot, entries), entries) && number !in Merged(slot, entries);
  }

  lemma {:induction false} ListedOfRefreshed(slot: string, entries: seq<Entry>)
    requires ProperEntries(entries)
    ensures Listed(Refreshed(slot, entries)) == Merged(slot, entries)
  {
    var list := Merged(slot, entries);
    MergedIsProper(slot, entries);
    SplitOfJoin(list);
    if list == [] {
    } else {
      MinusDisjoint(list, [""]);
    }
  }

  // ----- the numbers added for the Chinese network -----

  function FirstWith(entries: seq<Entry>, ecc: string): (k: nat)
    ensures k <= |entries| && (k < |entries| ==> entries[k].ecc == ecc)
    ensures forall i :: 0 <= i < k ==> entries[i].ecc != ecc
  {
    if entries == [] || entries[0].ecc == ecc then 0 else 1 + FirstWith(entries[1..], ecc)
  }

  function CtaEntry(ecc: string): Entry {
    Entry(ecc, "0", ECC_FOR_MMI)
  }

  // in place of the first entry with the number, or at the end
  function WithOne(entries: seq<Entry>, ecc: string): seq<Entry> {
    var k := FirstWith(entries, ecc);
    if k < |entries| then entries[k := CtaEntry(ecc)] else entries + [CtaEntry(ecc)]
  }

  function WithAll(entries: seq<Entry>, numbers: seq<string>): seq<Entry> {
    if numbers == [] then entries
    else WithOne(WithAll(entries, numbers[..|numbers| - 1]), numbers[|numbers| - 1])
  }

  lemma {:induction false} CustomizedForm(entries: seq<Entry>, inserted: bool, x: string)
    ensures x in Customized(entries, inserted) <==>
            exists i :: 0 <= i < |entries| && entries[i].ecc == x && !(inserted && entries[i].condition == ECC_NO_SIM)
  {
    if entries == [] {
    } else {
      var n := |entries| - 1;
      var front := entries[..n];
      CustomizedForm(front, inserted, x);
      if x in Customized(front, inserted) {
        var i :| 0 <= i < n && front[i].ecc == x && !(inserted && front[i].condition == ECC_NO_SIM);
        assert entries[i] == front[i];
      }
      if i :| 0 <= i < |entries| && entries[i].ecc == x && !(inserted && entries[i].condition == ECC_NO_SIM) {
        if i < n {
          assert front[i] == entries[i];
        }
      }
    }
  }

  lemma {:induction false} CustomizedWithOne(entries: seq<Entry>, ecc: string, inserted: bool, x: string)
    ensures x in Customized(WithOne(entries, ecc), inserted) <==> x in Customized(entries, inserted) || x == ecc
  {
    var after, k := WithOne(entries, ecc), FirstWith(entries, ecc);
    CustomizedForm(entries, inserted, x);
    CustomizedForm(after, inserted, x);
    assert after[k] == CtaEntry(ecc);
    if x in Customized(entries, inserted) && x != ecc {
      var i :| 0 <= i < |entries| && entries[i].ecc == x && !(inserted && entries[i].condition == ECC_NO_SIM);
      assert after[i] == entries[i];
    }
    if x in Customized(after, inserted) && x != ecc {
      var i :| 0 <= i < |after| && after[i].ecc == x && !(inserted && after[i].condition == ECC_NO_SIM);
      assert i != k && entries[i] == after[i];
    }
  }

  lemma {:induction false} CustomizedWithAll(entries: seq<Entry>, numbers: seq<string>, inserted: bool, x: string)
    ensures x in Customized(WithAll(entries, numbers), inserted) <==> x in Customized(entries, inserted) || x in numbers
  {
    if numbers == [] {
    } else {
      var front := numbers[..|numbers| - 1];
      CustomizedWithAll(entries, front, inserted, x);
      CustomizedWithOne(WithAll(entries, front), numbers[|numbers| - 1], inserted, x);
    }
  }

  /** Merging numbers into the customized entries makes exactly these numbers accepted in addition, with and without
      a SIM. */
  lemma {:induction false} MergeAddsNumbers(network: set<string>, slots: Slots, entries: seq<Entry>,
                                            numbers: seq<string>, number: string)
    ensures Accepts(network, slots, WithAll(entries, numbers), number) <==>
            Accepts(network, slots, entries, number) || HitIn(numbers, number)
  {
    var inserted := slots.sim1 != "" || slots.sim2 != "";
    forall x
      ensures x in Customized(WithAll(entries, numbers), inserted) <==>
              x in Customized(entries, inserted) || x in numbers
    {
      CustomizedWithAll(entries, numbers, inserted, x);
    }
    HitSame(Customized(WithAll(entries, numbers), inserted), Customized(entries, inserted), numbers, number);
  }

  // ----- service categories -----

  function FirstHitEntry(entries: seq<Entry>, number: string): (k: nat)
    ensures k <= |entries| && (k < |entries| ==> Hit(entries[k].ecc, number))
    ensures forall i :: 0 <= i < k ==> !Hit(entries[i].ecc, number)
  {
    if entries == [] || Hit(entries[0].ecc, number) then 0 else 1 + FirstHitEntry(entries[1..], number)
  }

  // the category of the first customized entry, 0 if there is none; None is the exception for no integer
  function CustomCategory(entries: seq<Entry>, number: string): Option<int> {
    var e := FirstHitEntry(entries, number);
    if e < |entries| then IntegerOf(entries[e].category) else Some(0)
  }

  lemma {:induction false} FirstWithStays(entries: seq<Entry>, ecc: string, other: string)
    requires ecc != other && FirstWith(entries, ecc) < |entries|
    ensures FirstWith(WithOne(entries, other), ecc) == FirstWith(entries, ecc)
    ensures WithOne(entries, other)[FirstWith(entries, ecc)] == entries[FirstWith(entries, ecc)]
  {
  }

  lemma {:induction false} MergedEntry(entries: seq<Entry>, numbers: seq<string>, ecc: string)
    requires ecc in numbers
    ensures var after := WithAll(entries, numbers);
      var k := FirstWith(after, ecc); k < |after| && after[k] == CtaEntry(ecc)
  {
    var front, last := numbers[..|numbers| - 1], numbers[|numbers| - 1];
    var before := WithAll(entries, front);
    var after := WithOne(before, last);
    if ecc == last {
      var k := FirstWith(before, ecc);
      assert after[k] == CtaEntry(ecc);
      assert forall i :: 0 <= i < k ==> after[i].ecc != ecc;
    } else {
      MergedEntry(entries, front, ecc);
      FirstWithStays(before, ecc, last);
    }
  }

  /** A merged number has category 0 among the customized entries, whatever these were before. */
  lemma {:induction false} MergedNumberHasCategoryZero(entries: seq<Entry>, numbers: seq<string>, ecc: string)
    requires ecc in numbers && ecc != "" && ecc[|ecc| - 1] != '+'
    ensures CustomCategory(WithAll(entries, numbers), ecc) == Some(0)
  {
    var after := WithAll(entries, numbers);
    MergedEntry(entries, numbers, ecc);
    var k, e := FirstWith(after, ecc), FirstHitEntry(after, ecc);
    assert Hit(after[k].ecc, ecc);
    assert after[e].ecc == ecc;
    ZeroIsInteger();
  }

  lemma {:induction false} ZeroIsInteger()
    ensures IntegerOf("0") == Some(0)
  {
  }

  // ----- the code -----

  class MtkEccList {
    var customizedEccList: seq<Entry>
    var networkEccCategory: map<string, int>  // mHashMapForNetworkEccCategory
    var eccCategoryList: string               // ril.ecc.service.category.list
    var ecclist: string                       // ril.ecclist
    var ecclist1: string                      // ril.ecclist1

    constructor (entries: seq<Entry>, eccCategoryList: string, ecclist: string, ecclist1: string)
      ensures customizedEccList == entries && networkEccCategory == map[]
      ensures this.eccCategoryList == eccCategoryList && this.ecclist == ecclist && this.ecclist1 == ecclist1
    {
      customizedEccList, networkEccCategory := entries, map[];
      this.eccCategoryList, this.ecclist, this.ecclist1 := eccCategoryList, ecclist, ecclist1;
    }

    // refills the map from the network's property; false if a category is no integer
    method ReadNetwork() returns (ok: bool)
      modifies this`networkEccCategory
      ensures ok <==> NetworkList(eccCategoryList).Some?
      ensures ok ==> networkEccCategory == NetworkList(eccCategoryList).value
    {
      networkEccCategory := map[];
      if eccCategoryList == "" {
        return true;
      }
      var pieces := Split(eccCategoryList, ';');
      assert pieces[..0] == [];
      for i := 0 to |pieces|
        invariant NetworkOf(pieces[..i]).Some? && NetworkOf(pieces[..i]).value == networkEccCategory
      {
        OneMorePiece(pieces, i);
        if pieces[i] != "" {
          var entry := Split(pieces[i], ',');
          if |entry| == 2 {
            var category := IntegerOf(entry[1]);
            if category.None? {
              NetworkFails(pieces, i + 1);
              return false;
            }
            networkEccCategory := networkEccCategory[entry[0] := category.value];
          }
        }
      }
      assert pieces[..|pieces|] == pieces;
      ok := true;
    }

    // the loop over the keys of the map, in whatever order
    method MatchesNetwork(number: string) returns (found: bool, key: string)
      ensures found <==> HitAny(networkEccCategory.Keys, number)
      ensures found ==> key in networkEccCategory && Hit(key, number)
    {
      var keys := networkEccCategory.Keys;
      key := "";
      while keys != {}
        invariant keys <= networkEccCategory.Keys
        invariant forall k :: k in networkEccCategory && k !in keys ==> !Hit(k, number)
        decreases |keys|
      {
        key :| key in keys;
        if key == number || key + "+" == number {
          assert Hit(key, number);
          return true, key;
        }
        keys := keys - {key};
      }
      found := false;
    }

    // behind a lookup, whose map it uses; None is the exception for a category that is no integer
    method GetServiceCategoryFromEcc(number: string) returns (category: Option<int>)
      ensures if HitAny(networkEccCategory.Keys, number)
              then exists k :: k in networkEccCategory && Hit(k, number) && category == Some(networkEccCategory[k])
              else category == CustomCategory(customizedEccList, number)
    {
      var found, key := MatchesNetwork(number);
      if found {
        return Some(networkEccCategory[key]);
      }
      for i := 0 to |customizedEccList|
        invariant forall k :: 0 <= k < i ==> !Hit(customizedEccList[k].ecc, number)
      {
        var ecc := customizedEccList[i].ecc;
        if ecc == number || ecc + "+" == number {
          assert FirstHitEntry(customizedEccList, number) == i;
          return IntegerOf(customizedEccList[i].category);
        }
      }
      category := Some(0);
    }

    // the loop over one list of numbers
    method Matches(list: seq<string>, number: string) returns (found: bool)
      ensures found <==> HitIn(list, number)
    {
      for i := 0 to |list|
        invariant forall k :: 0 <= k < i ==> !Hit(list[k], number)
      {
        var numberPlus := list[i] + "+";
        if list[i] == number || numberPlus == number {
          assert Hit(list[i], number);
          return true;
        }
      }
      found := false;
    }

    // the loop over the customized entries
    method MatchesCustomized(inserted: bool, number: string) returns (found: bool)
      ensures found <==> HitIn(Customized(customizedEccList, inserted), number)
    {
      assert customizedEccList[..0] == [];
      for i := 0 to |customizedEccList|
        invariant !HitIn(Customized(customizedEccList[..i], inserted), number)
      {
        ghost var front := customizedEccList[..i + 1];
        assert front[..i] == customizedEccList[..i];
        var ecc := customizedEccList[i].ecc;
        if !inserted || customizedEccList[i].condition != ECC_NO_SIM {
          HitLast(Customized(front[..i], inserted), ecc, number);
          if ecc == number || ecc + "+" == number {
            CustomizedPrefix(customizedEccList, i + 1, inserted, number);
            return true;
          }
        } else {
          assert Customized(front[..i], inserted) + [] == Customized(front[..i], inserted);
        }
      }
      assert customizedEccList[..|customizedEccList|] == customizedEccList;
      found := false;
    }

    // the number as extractNetworkPortionAlt leaves it, None if it is null; the answer is None if an exception
    // for the network's property leaves the lookup
    method IsEmergencyNumberExt(number: Option<string>) returns (answer: Option<bool>)
      modifies this`networkEccCategory
      ensures number.None? ==> answer == Some(false)
      ensures number.Some? ==>
        var network := NetworkList(eccCategoryList);
        if network.None? then answer == None
        else
          && networkEccCategory == network.value
          && answer == Some(Accepts(network.value.Keys, Slots(ecclist, ecclist1), customizedEccList, number.value))
    {
      if number.None? {
        return Some(false);
      }
      var ok := ReadNetwork();
      if !ok {
        return None;
      }
      var accepted := Lookup(number.value);
      answer := Some(accepted);
    }

    method Lookup(number: string) returns (accepted: bool)
      ensures accepted <==>
              Accepts(networkEccCategory.Keys, Slots(ecclist, ecclist1), customizedEccList, number)
    {
      var inserted := false;
      var found, key := MatchesNetwork(number);
      if found {
        return true;
      }
      if ecclist != "" {
        found := Matches(Split(ecclist, ','), number);
        if found {
          return true;
        }
        inserted := true;
      }
      if ecclist1 != "" {
        found := Matches(Split(ecclist1, ','), number);
        if found {
          return true;
        }
        inserted := true;
      }
      accepted := MatchesCustomized(inserted, number);
    }

    // the loop over the numbers of a property
    method ReadList(numbers: string) returns (simList: seq<string>)
      ensures simList == Listed(numbers)
    {
      simList := [];
      var pieces := Split(numbers, ',');
      assert pieces[..0] == [];
      for i := 0 to |pieces|
        invariant simList == Minus(pieces[..i], [""])
      {
        MinusOneMore(pieces, i);
        if pieces[i] != "" {
          simList := simList + [pieces[i]];
        }
      }
      assert pieces[..|pieces|] == pieces;
    }

    // the end of parseEccList
    method MergeCta()
      modifies this`customizedEccList
      ensures customizedEccList == WithAll(old(customizedEccList), ["120", "122", "110", "119"])
    {
      var emergencyCtaList := ["120", "122", "110", "119"];
      assert emergencyCtaList[..0] == [];
      for n := 0 to |emergencyCtaList|
        invariant customizedEccList == WithAll(old(customizedEccList), emergencyCtaList[..n])
      {
        assert emergencyCtaList[..n + 1][..n] == emergencyCtaList[..n];
        MergeOne(emergencyCtaList[n]);
      }
      assert emergencyCtaList[..|emergencyCtaList|] == emergencyCtaList;
    }

    method MergeOne(emergencyNum: string)
      modifies this`customizedEccList
      ensures customizedEccList == WithOne(old(customizedEccList), emergencyNum)
    {
      var found, nIndex := false, 0;
      while nIndex < |customizedEccList| && !found
        modifies {}
        invariant nIndex <= |customizedEccList|
        invariant forall i :: 0 <= i < nIndex ==> customizedEccList[i].ecc != emergencyNum
        invariant found ==> nIndex < |customizedEccList| && customizedEccList[nIndex].ecc == emergencyNum
        decreases |customizedEccList| - nIndex, !found
      {
        if customizedEccList[nIndex].ecc == emergencyNum {
          found := true;
        } else {
          nIndex := nIndex + 1;
        }
      }
      assert nIndex == FirstWith(customizedEccList, emergencyNum);
      if found {
        customizedEccList := customizedEccList[nIndex := CtaEntry(emergencyNum)];
      } else {
        customizedEccList := customizedEccList + [CtaEntry(emergencyNum)];
      }
    }

    method RefreshSlot(numbers: string, fixedList: seq<string>, fixedListNoSim: seq<string>) returns (slot: string)
      requires fixedList == Fixed(customizedEccList) && fixedListNoSim == NoSim(customizedEccList)
      ensures slot == Refreshed(numbers, customizedEccList)
    {
      var simList := ReadList(numbers);
      simList := Minus(simList, fixedList);
      simList := simList + fixedList;
      if numbers == "" {
        simList := Minus(simList, fixedListNoSim);
        simList := simList + fixedListNoSim;
      }
      slot := Join(simList);
    }

    method UpdateEmergencyNumbersProperty()
      modifies this`ecclist, this`ecclist1
      ensures Slots(ecclist, ecclist1) == RefreshedSlots(old(Slots(ecclist, ecclist1)), customizedEccList)
    {
      var fixedList: seq<string>, fixedListNoSim: seq<string> := [], [];
      assert customizedEccList[..0] == [];
      for i := 0 to |customizedEccList|
        invariant fixedList == Fixed(customizedEccList[..i]) && fixedListNoSim == NoSim(customizedEccList[..i])
      {
        assert customizedEccList[..i + 1][..i] == customizedEccList[..i];
        var ecc := customizedEccList[i].ecc;
        if customizedEccList[i].condition != ECC_NO_SIM {
          fixedList := fixedList + [ecc];
        } else if ecc != "" {
          fixedListNoSim := fixedListNoSim + [ecc];
        }
      }
      assert customizedEccList[..|customizedEccList|] == customizedEccList;
      ecclist := RefreshSlot(ecclist, fixedList, fixedListNoSim);
      ecclist1 := RefreshSlot(ecclist1, fixedList, fixedListNoSim);
    }
  }

  lemma {:induction false} OneMorePiece(pieces: seq<string>, i: nat)
    requires i < |pieces| && NetworkOf(pieces[..i]).Some?
    ensures NetworkOf(pieces[..i + 1]) == WithPiece(NetworkOf(pieces[..i]).value, pieces[i])
  {
    assert pieces[..i + 1][..i] == pieces[..i];
  }

  lemma {:induction false} NetworkFails(pieces: seq<string>, n: nat)
    requires n <= |pieces| && NetworkOf(pieces[..n]).None?
    ensures NetworkOf(pieces).None?
    decreases |pieces| - n
  {
    if n == |pieces| {
      assert pieces[..n] == pieces;
    } else {
      assert pieces[..n + 1][..n] == pieces[..n];
      NetworkFails(pieces, n + 1);
    }
  }

  lemma {:induction false} HitLast(list: seq<string>, ecc: string, number: string)
    ensures HitIn(list + [ecc], number) <==> HitIn(list, number) || Hit(ecc, number)
  {
    HitSame(list + [ecc], list, [ecc], number);
    assert [ecc][0] == ecc;
  }

  lemma {:induction false} CustomizedPrefix(entries: seq<Entry>, n: nat, inserted: bool, number: string)
    requires n <= |entries| && HitIn(Customized(entries[..n], inserted), number)
    ensures HitIn(Customized(entries, inserted), number)
    decreases |entries| - n
  {
    if n == |entries| {
      assert entries[..n] == entries;
    } else {
      assert entries[..n + 1][..n] == entries[..n];
      HitForm(Customized(entries[..n], inserted), number);
      HitForm(Customized(entries[..n + 1], inserted), number);
      CustomizedPrefix(entries, n + 1, inserted, number);
    }
  }
}
