/** The emergency numbers the network lists: what the lookup makes of a printed list of numbers and categories. */
module EccNetwork {
  import opened Options
  import CommaText
  import NmeaTokens
  import opened JavaText
  import opened EccList

  datatype Listing = Listing(number: string, category: int)

  predicate Printable(x: Listing) {
    x.number != "" && ',' !in x.number && ';' !in x.number && -0x8000_0000 <= x.category < 0x8000_0000
  }

  predicate AllPrintable(list: seq<Listing>) {
    forall i :: 0 <= i < |list| ==> Printable(list[i])
  }

  // a number and its category, a comma between them
  function Printed(x: Listing): string {
    x.number + "," + NmeaTokens.Signed(x.category)
  }

  function PrintedPieces(list: seq<Listing>): (r: seq<string>)
    ensures |r| == |list|
  {
    seq(|list|, i requires 0 <= i < |list| => Printed(list[i]))
  }

  // ... with semicolons between the pieces
  function Text(list: seq<Listing>): string {
    JoinedBy(PrintedPieces(list), ';')
  }

  // the numbers listed, each with the category listed last for it
  ghost predicate ReadsAs(m: map<string, int>, list: seq<Listing>) {
    && (forall k :: k in m <==> exists i :: 0 <= i < |list| && list[i].number == k)
    && (forall i :: 0 <= i < |list| && LastFor(list, i) ==>
          list[i].number in m && m[list[i].number] == list[i].category)
  }

  predicate LastFor(list: seq<Listing>, i: nat)
    requires i < |list|
  {
    forall j :: i < j < |list| ==> list[j].number != list[i].number
  }

  lemma {:induction false} PieceReads(m: map<string, int>, x: Listing)
    requires Printable(x)
    ensures WithPiece(m, Printed(x)) == Some(m[x.number := x.category])
    ensures Printed(x) != "" && ';' !in Printed(x)
  {
    IntegerRoundTrip(x.category);
    var parts := [x.number, NmeaTokens.Signed(x.category)];
    assert parts[1..] == [parts[1]] && parts[1..][1..] == [];
    assert JoinedBy(parts, ',') == Printed(x);
    SplitOfJoined(parts, ',');
  }

  lemma {:induction false} PiecesFirst(list: seq<Listing>)
    requires list != []
    ensures PrintedPieces(list)[0] == Printed(list[0]) && PrintedPieces(list)[1..] == PrintedPieces(list[1..])
  {
  }

  lemma {:induction false} PiecesFree(list: seq<Listing>)
    requires AllPrintable(list)
    ensures FreeOf(PrintedPieces(list), ';')
  {
    if list == [] {
    } else {
      PiecesFirst(list);
      PieceReads(map[], list[0]);
      PiecesFree(list[1..]);
    }
  }

  lemma {:induction false} OneMoreListing(m: map<string, int>, list: seq<Listing>, x: Listing)
    requires ReadsAs(m, list)
    ensures ReadsAs(m[x.number := x.category], list + [x])
  {
    var after, all := m[x.number := x.category], list + [x];
    forall k ensures k in after <==> exists i :: 0 <= i < |all| && all[i].number == k {
      if k in m {
        var i :| 0 <= i < |list| && list[i].number == k;
        assert all[i].number == k;
      }
      assert all[|list|] == x;
      if i :| 0 <= i < |all| && all[i].number == k {
        assert i < |list| ==> list[i].number == k;
      }
    }
    forall i | 0 <= i < |all| && LastFor(all, i)
      ensures all[i].number in after && after[all[i].number] == all[i].category
    {
      if i < |list| {
        assert all[|list|] == x;
        assert forall j :: i < j < |list| ==> all[j] == list[j];
        assert LastFor(list, i);
      }
    }
  }

  lemma {:induction false} PiecesLast(list: seq<Listing>, x: Listing)
    ensures PrintedPieces(list + [x]) == PrintedPieces(list) + [Printed(x)]
  {
  }

  lemma {:induction false} NetworkLast(pieces: seq<string>, piece: string)
    requires NetworkOf(pieces).Some?
    ensures NetworkOf(pieces + [piece]) == WithPiece(NetworkOf(pieces).value, piece)
  {
    assert (pieces + [piece])[..|pieces|] == pieces;
  }

  lemma {:induction false} PiecesRead(list: seq<Listing>)
    requires AllPrintable(list)
    ensures NetworkOf(PrintedPieces(list)).Some? && ReadsAs(NetworkOf(PrintedPieces(list)).value, list)
    decreases |list|
  {
    if list == [] {
    } else {
      var n := |list| - 1;
      var front, x := list[..n], list[n];
      assert front + [x] == list;
      PiecesRead(front);
      ReadLast(front, x, NetworkOf(PrintedPieces(front)).value);
    }
  }

  lemma {:induction false} ReadLast(list: seq<Listing>, x: Listing, m: map<string, int>)
    requires Printable(x) && NetworkOf(PrintedPieces(list)) == Some(m) && ReadsAs(m, list)
    ensures NetworkOf(PrintedPieces(list + [x])) == Some(m[x.number := x.category])
    ensures ReadsAs(m[x.number := x.category], list + [x])
  {
    PiecesLast(list, x);
    NetworkLast(PrintedPieces(list), Printed(x));
    PieceReads(m, x);
    OneMoreListing(m, list, x);
  }

  lemma {:induction false} LastPieceNotEmpty(list: seq<Listing>)
    requires AllPrintable(list) && list != []
    ensures WithoutTrailingEmpty(PrintedPieces(list)) == PrintedPieces(list)
  {
    PieceReads(map[], list[|list| - 1]);
  }

  lemma {:induction false} TextNotEmpty(list: seq<Listing>)
    requires AllPrintable(list) && list != []
    ensures Text(list) != ""
  {
    PieceReads(map[], list[0]);
  }

  /** A printed list is read back: its keys are exactly the numbers printed, each with its last category. */
  lemma {:induction false} PrintedListReads(list: seq<Listing>)
    requires AllPrintable(list)
    ensures NetworkList(Text(list)).Some? && ReadsAs(NetworkList(Text(list)).value, list)
  {
    if list == [] {
    } else {
      TextNotEmpty(list);
      PiecesFree(list);
      SplitOfJoined(PrintedPieces(list), ';');
      LastPieceNotEmpty(list);
      PiecesRead(list);
    }
  }

  /** The lookup finds a number in a printed list exactly if it is one of those printed, or one followed by a plus
      sign; so all of these are emergency numbers, whatever the SIMs and the customized entries list. */
  lemma {:induction false} PrintedNumbersAccepted(list: seq<Listing>, slots: Slots, entries: seq<Entry>, number: string)
    requires AllPrintable(list)
    ensures NetworkList(Text(list)).Some?
    ensures var network := NetworkList(Text(list)).value.Keys;
      var printed := exists i :: 0 <= i < |list| && (number == list[i].number || number == list[i].number + "+");
      (HitAny(network, number) <==> printed) && (printed ==> Accepts(network, slots, entries, number))
  {
    PrintedListReads(list);
    var m := NetworkList(Text(list)).value;
    if k :| k in m.Keys && Hit(k, number) {
      var i :| 0 <= i < |list| && list[i].number == k;
      assert number == list[i].number || number == list[i].number + "+";
    }
    if i :| 0 <= i < |list| && (number == list[i].number || number == list[i].number + "+") {
      assert list[i].number in m.Keys && Hit(list[i].number, number);
    }
  }

  lemma {:induction false} OnlyItself(m: map<string, int>, number: string, k: string)
    requires number != "" && number[|number| - 1] != '+' && Hit(k, number)
    ensures k == number
  {
    assert (k + "+")[|k|] == '+';
  }

  /** A printed number is accepted, and behind that lookup its service category is the one printed last for it, unless
      it ends with a plus sign itself and can be taken for another number. */
  method LookUpPrinted(ecc: MtkEccList, list: seq<Listing>, i: nat)
    returns (accepted: Option<bool>, category: Option<int>)
    requires AllPrintable(list) && i < |list| && LastFor(list, i) && ecc.eccCategoryList == Text(list)
    modifies ecc`networkEccCategory
    ensures accepted == Some(true)
    ensures list[i].number[|list[i].number| - 1] != '+' ==> category == Some(list[i].category)
  {
    var number := list[i].number;
    PrintedNumbersAccepted(list, Slots(ecc.ecclist, ecc.ecclist1), ecc.customizedEccList, number);
    PrintedListReads(list);
    accepted := ecc.IsEmergencyNumberExt(Some(number));
    category := ecc.GetServiceCategoryFromEcc(number);
    if number[|number| - 1] != '+' {
      assert Hit(number, number) && number in ecc.networkEccCategory;
      forall k | k in ecc.networkEccCategory && Hit(k, number) ensures k == number {
        OnlyItself(ecc.networkEccCategory, number, k);
      }
    }
  }

  // ----- the other lists -----

  /** A number in a SIM's property is accepted, alone and with a plus sign. */
  lemma {:induction false} SimNumbersAccepted(network: set<string>, slots: Slots, entries: seq<Entry>,
                                              numbers: seq<string>, i: nat)
    requires Proper(numbers) && i < |numbers|
    requires slots.sim1 == CommaText.Join(numbers) || slots.sim2 == CommaText.Join(numbers)
    ensures Accepts(network, slots, entries, numbers[i]) && Accepts(network, slots, entries, numbers[i] + "+")
  {
    SplitOfJoin(numbers);
    assert Hit(numbers[i], numbers[i]) && Hit(numbers[i], numbers[i] + "+");
  }

  /** A customized entry's number is accepted, unless it is for no SIM and a SIM's property lists something. */
  lemma {:induction false} CustomizedNumbersAccepted(network: set<string>, slots: Slots, entries: seq<Entry>, i: nat)
    requires i < |entries| && (entries[i].condition == "0" ==> slots == Slots("", ""))
    ensures Accepts(network, slots, entries, entries[i].ecc)
    ensures Accepts(network, slots, entries, entries[i].ecc + "+")
  {
    var inserted, x := slots.sim1 != "" || slots.sim2 != "", entries[i].ecc;
    CustomizedForm(entries, inserted, x);
    var k :| 0 <= k < |Customized(entries, inserted)| && Customized(entries, inserted)[k] == x;
    assert Hit(x, x) && Hit(x, x + "+");
  }

  /** The category of a number only customized entries list is the one printed in the first of them. */
  lemma {:induction false} CustomizedCategory(entries: seq<Entry>, i: nat, category: int, number: string)
    requires i < |entries| && -0x8000_0000 <= category < 0x8000_0000
    requires entries[i].category == NmeaTokens.Signed(category)
    requires number == entries[i].ecc || number == entries[i].ecc + "+"
    requires forall k :: 0 <= k < i ==> number != entries[k].ecc && number != entries[k].ecc + "+"
    ensures CustomCategory(entries, number) == Some(category)
  {
    IntegerRoundTrip(category);
    var e := FirstHitEntry(entries, number);
    assert Hit(entries[i].ecc, number) && e <= i;
  }

  // ----- whose numbers a refresh writes where -----

  lemma {:induction false} FixedForm(entries: seq<Entry>, x: string)
    ensures x in Fixed(entries) <==>
            exists i :: 0 <= i < |entries| && entries[i].ecc == x && entries[i].condition != "0"
  {
    if entries == [] {
    } else {
      var n := |entries| - 1;
      FixedForm(entries[..n], x);
      if i :| 0 <= i < n && entries[..n][i].ecc == x && entries[..n][i].condition != "0" {
        assert entries[i] == entries[..n][i];
      }
      if i :| 0 <= i < |entries| && entries[i].ecc == x && entries[i].condition != "0" {
        assert i < n ==> entries[..n][i] == entries[i];
      }
    }
  }

  lemma {:induction false} NoSimForm(entries: seq<Entry>, x: string)
    requires x != ""
    ensures x in NoSim(entries) <==>
            exists i :: 0 <= i < |entries| && entries[i].ecc == x && entries[i].condition == "0"
  {
    if entries == [] {
    } else {
      var n := |entries| - 1;
      NoSimForm(entries[..n], x);
      if i :| 0 <= i < n && entries[..n][i].ecc == x && entries[..n][i].condition == "0" {
        assert entries[i] == entries[..n][i];
      }
      if i :| 0 <= i < |entries| && entries[i].ecc == x && entries[i].condition == "0" {
        assert i < n ==> entries[..n][i] == entries[i];
      }
    }
  }

  // a number a refreshed property of a SIM lists: its own, and the customized ones that apply to it
  ghost predicate Belongs(slot: string, entries: seq<Entry>, x: string) {
    || (slot != "" && x in Split(slot, ',') && x != "")
    || exists i :: 0 <= i < |entries| && entries[i].ecc == x && (entries[i].condition != "0" || slot == "")
  }

  lemma {:induction false} SlotLists(slot: string, entries: seq<Entry>, x: string)
    requires ProperEntries(entries)
    ensures x in Listed(Refreshed(slot, entries)) <==> Belongs(slot, entries, x)
  {
    ListedOfRefreshed(slot, entries);
    MergedIsProper(slot, entries);
    FixedForm(entries, x);
    if x != "" {
      NoSimForm(entries, x);
    }
    if slot == "" {
      assert Split(slot, ',') == [""];
    }
  }

  /** A refresh writes to each SIM's property that SIM's own numbers and the customized ones that apply to it, those
      for no SIM only where the property was empty, and nothing of the other SIM. */
  lemma {:induction false} EachSlotKeepsItsNumbers(slots: Slots, entries: seq<Entry>, x: string)
    requires ProperEntries(entries)
    ensures var after := RefreshedSlots(slots, entries);
      && (x in Listed(after.sim1) <==> Belongs(slots.sim1, entries, x))
      && (x in Listed(after.sim2) <==> Belongs(slots.sim2, entries, x))
  {
    SlotLists(slots.sim1, entries, x);
    SlotLists(slots.sim2, entries, x);
  }
}
