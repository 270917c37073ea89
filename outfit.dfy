/**
 * Resource selection and cached-outfit scoring (src/engine/outfit.ts).
 *
 * The outfit object belongs to a library that is not part of this model: what it
 * can take and what equipping does are the caller-supplied `FitRules`. The game
 * queries `equippedItem`, `outfitPieces` and `toSlot` are the `Wardrobe` functions.
 */
module Outfit {
  import opened Wrappers
  import opened Subsequence

  /** An item by name; the game's "none" item stands for an empty slot. */
  type Item = string

  datatype Slot = Hat | Weapon | OffHand | Back | Shirt | Pants | Acc1 | Acc2 | Acc3 | FamiliarSlot | NoSlot

  /** The library's fitting rules: whether an outfit can take some equipment, and the outfit after it does. */
  datatype FitRules = FitRules(
    canEquip: (map<Slot, Item>, seq<Item>) -> bool,
    equip: (map<Slot, Item>, seq<Item>) -> Option<map<Slot, Item>>)

  /** An outfit under construction: the equipment chosen so far, changed only by `Equip`. */
  class Outfit {
    var equips: map<Slot, Item>
    const rules: FitRules

    constructor (rules: FitRules)
      ensures this.rules == rules && equips == map[]
    {
      this.rules := rules;
      equips := map[];
    }

    predicate CanEquip(spec: seq<Item>)
      reads this
    {
      rules.canEquip(equips, spec)
    }

    /** Equips `spec` if the library accepts it; a refused equip leaves the outfit as it was. */
    method Equip(spec: seq<Item>) returns (ok: bool)
      modifies this
      ensures ok == rules.equip(old(equips), spec).Some?
      ensures equips == if ok then rules.equip(old(equips), spec).value else old(equips)
    {
      var next := rules.equip(equips, spec);
      ok := next.Some?;
      if ok {
        equips := next.value;
      }
    }
  }

  /**
   * A resource as the selection loops see it: whether `available()` holds, its
   * `chance()` if it has one (only compared with 0 and 1), and what it needs equipped
   * (an absent `equip` is the empty list).
   */
  datatype Resource = Resource(name: string, available: bool, chance: Option<real>, equip: seq<Item>)

  /** Passes the two checks made before any equip attempt. */
  predicate Offered(r: Resource)
  {
    r.available && r.chance != Some(0.0)
  }

  predicate Certain(r: Resource)
  {
    r.chance == Some(1.0)
  }

  /** Passes all four checks against the outfit state `e`. */
  predicate Accepts(rules: FitRules, e: map<Slot, Item>, r: Resource)
  {
    Offered(r) && rules.canEquip(e, r.equip) && rules.equip(e, r.equip).Some?
  }

  // ---------------------------------------------------------------------------
  // equipFirst and equipUntilCapped

  /** The resource equipFirst returns and the outfit state it leaves. */
  function FirstFit(rules: FitRules, e: map<Slot, Item>, rs: seq<Resource>): (Option<Resource>, map<Slot, Item>)
    decreases |rs|
  {
    if rs == [] then (None, e)
    else if Accepts(rules, e, rs[0]) then (Some(rs[0]), rules.equip(e, rs[0].equip).value)
    else FirstFit(rules, e, rs[1..])
  }

  /** The resources equipUntilCapped returns and the outfit state it leaves. */
  function UntilCapped(rules: FitRules, e: map<Slot, Item>, rs: seq<Resource>): (seq<Resource>, map<Slot, Item>)
    decreases |rs|
  {
    if rs == [] then ([], e)
    else if Accepts(rules, e, rs[0]) then
      var e' := rules.equip(e, rs[0].equip).value;
      if Certain(rs[0]) then ([rs[0]], e')
      else var (rest, e'') := UntilCapped(rules, e', rs[1..]); ([rs[0]] + rest, e'')
    else UntilCapped(rules, e, rs[1..])
  }

  method EquipFirst(outfit: Outfit, resources: seq<Resource>) returns (chosen: Option<Resource>)
    modifies outfit
    ensures (chosen, outfit.equips) == FirstFit(outfit.rules, old(outfit.equips), resources)
  {
    for i := 0 to |resources|
      invariant outfit.equips == old(outfit.equips)
      invariant FirstFit(outfit.rules, outfit.equips, resources[i..]) == FirstFit(outfit.rules, old(outfit.equips), resources)
    {
      assert resources[i..][1..] == resources[i + 1..];
      var resource := resources[i];
      if !resource.available { continue; }
      if resource.chance == Some(0.0) { continue; }
      if !outfit.CanEquip(resource.equip) { continue; }
      var ok := outfit.Equip(resource.equip);
      if !ok { continue; }
      return Some(resource);
    }
    return None;
  }

  method EquipUntilCapped(outfit: Outfit, resources: seq<Resource>) returns (result: seq<Resource>)
    modifies outfit
    ensures (result, outfit.equips) == UntilCapped(outfit.rules, old(outfit.equips), resources)
  {
    ghost var goal := UntilCapped(outfit.rules, outfit.equips, resources);
    result := [];
    assert resources[0..] == resources;
    for i := 0 to |resources|
      invariant result + UntilCapped(outfit.rules, outfit.equips, resources[i..]).0 == goal.0
      invariant UntilCapped(outfit.rules, outfit.equips, resources[i..]).1 == goal.1
    {
      assert resources[i..][1..] == resources[i + 1..];
      var resource := resources[i];
      if !resource.available { continue; }
      if resource.chance == Some(0.0) { continue; }
      if !outfit.CanEquip(resource.equip) { continue; }
      var ok := outfit.Equip(resource.equip);
      if !ok { continue; }
      assert result + [resource] + UntilCapped(outfit.rules, outfit.equips, resources[i + 1..]).0
        == result + ([resource] + UntilCapped(outfit.rules, outfit.equips, resources[i + 1..]).0);
      result := result + [resource];
      if resource.chance == Some(1.0) {
        assert result == goal.0 && outfit.equips == goal.1;
        break;
      }
    }
    assert result == goal.0 && outfit.equips == goal.1;
  }

  /** equipFirst returns the first resource, in list order, that passes all four checks, or none if none does. */
  lemma {:induction false} FirstFitIsFirst(rules: FitRules, e: map<Slot, Item>, rs: seq<Resource>)
    ensures var (chosen, e') := FirstFit(rules, e, rs);
      match chosen
      case None => e' == e && forall i :: 0 <= i < |rs| ==> !Accepts(rules, e, rs[i])
      case Some(r) => exists i :: (0 <= i < |rs| && rs[i] == r && Accepts(rules, e, r) &&
        e' == rules.equip(e, r.equip).value && forall j :: 0 <= j < i ==> !Accepts(rules, e, rs[j]))
    decreases |rs|
  {
    if rs != [] && !Accepts(rules, e, rs[0]) {
      FirstFitIsFirst(rules, e, rs[1..]);
      if FirstFit(rules, e, rs).0.Some? {
        var r := FirstFit(rules, e, rs).0.value;
        var i :| 0 <= i < |rs[1..]| && rs[1..][i] == r && Accepts(rules, e, r) &&
          forall j :: 0 <= j < i ==> !Accepts(rules, e, rs[1..][j]);
        assert rs[i + 1] == r;
        assert forall j :: 1 <= j < i + 1 ==> rs[j] == rs[1..][j - 1];
      } else {
        assert forall i :: 1 <= i < |rs| ==> rs[i] == rs[1..][i - 1];
      }
    } else if rs != [] {
      assert rs[0] == FirstFit(rules, e, rs).0.value;
    }
  }

  function OnlyOffered(rs: seq<Resource>): seq<Resource>
  {
    if rs == [] then [] else (if Offered(rs[0]) then [rs[0]] else []) + OnlyOffered(rs[1..])
  }

  /** Unavailable and chance-0 resources are skipped before any equip attempt: removing them changes nothing. */
  lemma {:induction false} UnofferedIgnored(rules: FitRules, e: map<Slot, Item>, rs: seq<Resource>)
    ensures FirstFit(rules, e, rs) == FirstFit(rules, e, OnlyOffered(rs))
    ensures UntilCapped(rules, e, rs) == UntilCapped(rules, e, OnlyOffered(rs))
    decreases |rs|
  {
    if rs != [] {
      if Offered(rs[0]) {
        assert OnlyOffered(rs) == [rs[0]] + OnlyOffered(rs[1..]);
        assert OnlyOffered(rs)[1..] == OnlyOffered(rs[1..]);
        UnofferedIgnored(rules, e, rs[1..]);
        if Accepts(rules, e, rs[0]) {
          UnofferedIgnored(rules, rules.equip(e, rs[0].equip).value, rs[1..]);
        }
      } else {
        assert OnlyOffered(rs) == OnlyOffered(rs[1..]);
        UnofferedIgnored(rules, e, rs[1..]);
      }
    }
  }

  /**
   * The outfit states a run of equips passes through: `s[0]` is the start, and
   * `s[k + 1]` is `s[k]` after the library equips `rs[k]` (unchanged if it refuses).
   */
  function EquipTrace(rules: FitRules, e: map<Slot, Item>, rs: seq<Resource>): (s: seq<map<Slot, Item>>)
    ensures |s| == |rs| + 1 && s[0] == e
    decreases |rs|
  {
    if rs == [] then [e]
    else
      var next := if rules.equip(e, rs[0].equip).Some? then rules.equip(e, rs[0].equip).value else e;
      [e] + EquipTrace(rules, next, rs[1..])
  }

  /**
   * equipUntilCapped returns an order-preserving subsequence of its input whose every
   * element passed all four checks against the outfit as it stood when that element
   * was tried, and it leaves the outfit with all of them equipped in turn; only its
   * last element can have chance 1, because the loop stops right after the first
   * one it fits.
   */
  lemma {:induction false} UntilCappedShape(rules: FitRules, e: map<Slot, Item>, rs: seq<Resource>)
    ensures var (result, e') := UntilCapped(rules, e, rs);
      var states := EquipTrace(rules, e, result);
      IsSubsequence(result, rs) &&
      (forall k :: 0 <= k < |result| ==> Accepts(rules, states[k], result[k])) &&
      e' == states[|result|] &&
      (forall k :: 0 <= k < |result| - 1 ==> !Certain(result[k]))
    decreases |rs|
  {
    if rs != [] {
      var result := UntilCapped(rules, e, rs).0;
      if Accepts(rules, e, rs[0]) {
        var e' := rules.equip(e, rs[0].equip).value;
        if Certain(rs[0]) {
          assert result == [rs[0]];
          assert result[1..] == [];
          assert EquipTrace(rules, e, result) == [e] + EquipTrace(rules, e', []);
          assert IsSubsequence(result[1..], rs[1..]);
        } else {
          UntilCappedShape(rules, e', rs[1..]);
          var rest := UntilCapped(rules, e', rs[1..]).0;
          assert result == [rs[0]] + rest;
          assert result[1..] == rest;
          var states := EquipTrace(rules, e, result);
          assert states == [e] + EquipTrace(rules, e', rest);
          assert forall k :: 1 <= k < |result| ==> states[k] == EquipTrace(rules, e', rest)[k - 1] && result[k] == rest[k - 1];
        }
      } else {
        UntilCappedShape(rules, e, rs[1..]);
      }
    }
  }

  /** The prefix of `rs` up to and including its first chance-1 resource (all of `rs` if none). */
  function UpToFirstCertain(rs: seq<Resource>): seq<Resource>
  {
    if rs == [] then []
    else if Certain(rs[0]) then [rs[0]]
    else [rs[0]] + UpToFirstCertain(rs[1..])
  }

  /** An outfit that takes everything. */
  ghost predicate TakesAll(rules: FitRules)
  {
    forall e, spec :: rules.canEquip(e, spec) && rules.equip(e, spec).Some?
  }

  /** When every resource is offered and fits, equipUntilCapped stops right after the first chance-1 resource. */
  lemma {:induction false} UntilCappedStopsAtCertain(rules: FitRules, e: map<Slot, Item>, rs: seq<Resource>)
    requires TakesAll(rules)
    requires forall k :: 0 <= k < |rs| ==> Offered(rs[k])
    ensures UntilCapped(rules, e, rs).0 == UpToFirstCertain(rs)
    decreases |rs|
  {
    if rs != [] {
      assert Offered(rs[0]);
      assert rules.canEquip(e, rs[0].equip) && rules.equip(e, rs[0].equip).Some?;
      if !Certain(rs[0]) {
        UntilCappedStopsAtCertain(rules, rules.equip(e, rs[0].equip).value, rs[1..]);
      }
    }
  }

  /** [A(0.5), B(1), C(1)] yields [A, B]; C is never tried. */
  lemma CappedExample(rules: FitRules, e: map<Slot, Item>)
    requires TakesAll(rules)
    ensures var a := Resource("A", true, Some(0.5), []);
      var b := Resource("B", true, Some(1.0), []);
      var c := Resource("C", true, Some(1.0), []);
      UntilCapped(rules, e, [a, b, c]).0 == [a, b]
  {
    var a := Resource("A", true, Some(0.5), []);
    var b := Resource("B", true, Some(1.0), []);
    var c := Resource("C", true, Some(1.0), []);
    UntilCappedStopsAtCertain(rules, e, [a, b, c]);
    assert [a, b, c][1..] == [b, c];
  }

  // ---------------------------------------------------------------------------
  // loadItems

  const NonAccSlots: seq<Slot> := [Hat, Weapon, OffHand, Back, Shirt, Pants]
  const AccSlots: seq<Slot> := [Acc1, Acc2, Acc3]
  const OutfitSlots: seq<Slot> := NonAccSlots + AccSlots

  /** The game queries loadItems makes: the item worn in a slot, an outfit's pieces, an item's slot. */
  datatype Wardrobe = Wardrobe(equipped: Slot -> Item, pieces: string -> seq<Item>, toSlot: Item -> Slot)

  /** One step of the placement loop: the map so far and the accessory slots still free, popped from the end. */
  function PlaceOne(m: map<Slot, Item>, free: seq<Slot>, item: Item, slot: Slot): (map<Slot, Item>, seq<Slot>)
  {
    match slot
    case Weapon => (if Weapon in m then m[OffHand := item] else m[Weapon := item], free)
    case Acc1 => if free == [] then (m[NoSlot := item], free) else (m[free[|free| - 1] := item], free[..|free| - 1])
    case _ => (m[slot := item], free)
  }

  function Place(m: map<Slot, Item>, free: seq<Slot>, items: seq<Item>, toSlot: Item -> Slot): map<Slot, Item>
    decreases |items|
  {
    if items == [] then m
    else var (m', free') := PlaceOne(m, free, items[0], toSlot(items[0])); Place(m', free', items[1..], toSlot)
  }

  /** The slot map loadItems returns; the empty name stands for an absent or empty outfit name. */
  function Loaded(outfit: string, w: Wardrobe): map<Slot, Item>
  {
    if outfit == "" then map s | s in OutfitSlots :: w.equipped(s)
    else Place(map[], [Acc3, Acc2, Acc1], w.pieces(outfit), w.toSlot)
  }

  method LoadItems(outfit: string, w: Wardrobe) returns (result: map<Slot, Item>)
    ensures result == Loaded(outfit, w)
    ensures outfit == "" ==> result.Keys == {Hat, Weapon, OffHand, Back, Shirt, Pants, Acc1, Acc2, Acc3}
    ensures outfit == "" ==> forall s :: s in result ==> result[s] == w.equipped(s)
  {
    if outfit == "" {
      return map s | s in OutfitSlots :: w.equipped(s);
    }
    result := map[];
    var freeAccSlots := [Acc3, Acc2, Acc1];
    var items := w.pieces(outfit);
    for i := 0 to |items|
      invariant Place(result, freeAccSlots, items[i..], w.toSlot) == Loaded(outfit, w)
    {
      assert items[i..][1..] == items[i + 1..];
      var item := items[i];
      var slot := w.toSlot(item);
      match slot {
        case Weapon =>
          // the second weapon in the list is the off-hand one
          if Weapon in result {
            result := result[OffHand := item];
          } else {
            result := result[Weapon := item];
          }
        case Acc1 =>
          if freeAccSlots == [] {
            result := result[NoSlot := item];
          } else {
            result := result[freeAccSlots[|freeAccSlots| - 1] := item];
            freeAccSlots := freeAccSlots[..|freeAccSlots| - 1];
          }
        case _ =>
          result := result[slot := item];
      }
    }
  }

  /** The pieces of `items` whose slot is `s`, in order. */
  function PiecesFor(items: seq<Item>, toSlot: Item -> Slot, s: Slot): seq<Item>
  {
    if items == [] then []
    else (if toSlot(items[0]) == s then [items[0]] else []) + PiecesFor(items[1..], toSlot, s)
  }

  /** The free accessory slots after `n` accessories were placed. */
  function FreeAfter(n: nat): seq<Slot>
  {
    if n >= 3 then [] else [Acc3, Acc2, Acc1][..3 - n]
  }

  /** The number of accessory slots taken after placing an item whose slot is `slot`. */
  function NextTaken(n: nat, slot: Slot): nat
  {
    if slot == Acc1 && n < 3 then n + 1 else n
  }

  /** The one key a placement step writes. */
  function Target(m: map<Slot, Item>, n: nat, slot: Slot): Slot
  {
    if slot == Weapon then (if Weapon in m then OffHand else Weapon)
    else if slot == Acc1 then (if n < 3 then AccSlots[n] else NoSlot)
    else slot
  }

  /** Each placement step writes exactly one key, and pops the next free accessory slot, acc1 first. */
  lemma PlaceOneWritesTarget(m: map<Slot, Item>, n: nat, item: Item, slot: Slot)
    requires n <= 3
    ensures PlaceOne(m, FreeAfter(n), item, slot) == (m[Target(m, n, slot) := item], FreeAfter(NextTaken(n, slot)))
  {
    if slot == Acc1 {
      if n == 0 {
        assert FreeAfter(0) == [Acc3, Acc2, Acc1] && FreeAfter(1) == [Acc3, Acc2] && AccSlots[0] == Acc1;
      } else if n == 1 {
        assert FreeAfter(1) == [Acc3, Acc2] && FreeAfter(2) == [Acc3] && AccSlots[1] == Acc2;
        assert [Acc3, Acc2][..1] == [Acc3];
      } else if n == 2 {
        assert FreeAfter(2) == [Acc3] && FreeAfter(3) == [] && AccSlots[2] == Acc3;
      } else {
        assert FreeAfter(3) == [];
      }
    }
  }

  lemma PlaceUnfold(m: map<Slot, Item>, n: nat, items: seq<Item>, toSlot: Item -> Slot)
    requires n <= 3 && items != []
    ensures Place(m, FreeAfter(n), items, toSlot) ==
      Place(m[Target(m, n, toSlot(items[0])) := items[0]], FreeAfter(NextTaken(n, toSlot(items[0]))), items[1..], toSlot)
  {
    PlaceOneWritesTarget(m, n, items[0], toSlot(items[0]));
  }

  predicate NoPieceIn(items: seq<Item>, toSlot: Item -> Slot, s: Slot)
  {
    forall i :: 0 <= i < |items| ==> toSlot(items[i]) != s
  }

  lemma {:induction false} PlaceWeapon(m: map<Slot, Item>, n: nat, items: seq<Item>, toSlot: Item -> Slot)
    requires n <= 3
    ensures var p := Place(m, FreeAfter(n), items, toSlot);
      var ws := PiecesFor(items, toSlot, Weapon);
      (Weapon in p <==> Weapon in m || ws != []) &&
      (Weapon in p ==> p[Weapon] == if Weapon in m then m[Weapon] else ws[0])
    decreases |items|
  {
    if items != [] {
      var slot := toSlot(items[0]);
      PlaceUnfold(m, n, items, toSlot);
      PlaceWeapon(m[Target(m, n, slot) := items[0]], NextTaken(n, slot), items[1..], toSlot);
    }
  }

  lemma {:induction false} PlaceOffHand(m: map<Slot, Item>, n: nat, items: seq<Item>, toSlot: Item -> Slot)
    requires n <= 3
    requires NoPieceIn(items, toSlot, OffHand)
    ensures var p := Place(m, FreeAfter(n), items, toSlot);
      var ws := PiecesFor(items, toSlot, Weapon);
      if (Weapon in m && |ws| >= 1) || |ws| >= 2 then OffHand in p && p[OffHand] == ws[|ws| - 1]
      else (OffHand in p <==> OffHand in m) && (OffHand in m ==> p[OffHand] == m[OffHand])
    decreases |items|
  {
    if items != [] {
      var slot := toSlot(items[0]);
      assert slot != OffHand;
      PlaceUnfold(m, n, items, toSlot);
      PlaceOffHand(m[Target(m, n, slot) := items[0]], NextTaken(n, slot), items[1..], toSlot);
    }
  }

  lemma {:induction false} PlaceAccessory(m: map<Slot, Item>, n: nat, items: seq<Item>, toSlot: Item -> Slot, k: nat)
    requires n <= 3 && k < 3
    requires NoPieceIn(items, toSlot, Acc2) && NoPieceIn(items, toSlot, Acc3)
    ensures var p := Place(m, FreeAfter(n), items, toSlot);
      var accs := PiecesFor(items, toSlot, Acc1);
      if n <= k && k - n < |accs| then AccSlots[k] in p && p[AccSlots[k]] == accs[k - n]
      else (AccSlots[k] in p <==> AccSlots[k] in m) && (AccSlots[k] in m ==> p[AccSlots[k]] == m[AccSlots[k]])
    decreases |items|
  {
    if items != [] {
      var slot := toSlot(items[0]);
      assert slot != Acc2 && slot != Acc3;
      var target := Target(m, n, slot);
      assert target == AccSlots[k] ==> slot == Acc1 && n == k;
      PlaceUnfold(m, n, items, toSlot);
      PlaceAccessory(m[target := items[0]], NextTaken(n, slot), items[1..], toSlot, k);
    }
  }

  lemma {:induction false} PlaceOverflow(m: map<Slot, Item>, n: nat, items: seq<Item>, toSlot: Item -> Slot)
    requires n <= 3
    requires NoPieceIn(items, toSlot, NoSlot)
    ensures var p := Place(m, FreeAfter(n), items, toSlot);
      var accs := PiecesFor(items, toSlot, Acc1);
      if n + |accs| > 3 then NoSlot in p && p[NoSlot] == accs[|accs| - 1]
      else (NoSlot in p <==> NoSlot in m) && (NoSlot in m ==> p[NoSlot] == m[NoSlot])
    decreases |items|
  {
    if items != [] {
      var slot := toSlot(items[0]);
      assert slot != NoSlot;
      PlaceUnfold(m, n, items, toSlot);
      PlaceOverflow(m[Target(m, n, slot) := items[0]], NextTaken(n, slot), items[1..], toSlot);
    }
  }

  /** With an outfit name, the first weapon piece goes to the weapon slot. */
  lemma LoadedWeapon(outfit: string, w: Wardrobe)
    requires outfit != ""
    ensures var m := Loaded(outfit, w);
      var ws := PiecesFor(w.pieces(outfit), w.toSlot, Weapon);
      (Weapon in m <==> ws != []) && (Weapon in m ==> m[Weapon] == ws[0])
  {
    assert FreeAfter(0) == [Acc3, Acc2, Acc1];
    PlaceWeapon(map[], 0, w.pieces(outfit), w.toSlot);
  }

  /** With an outfit name and no off-hand piece, the last of two or more weapons is the dual-wielded off-hand one. */
  lemma LoadedOffHand(outfit: string, w: Wardrobe)
    requires outfit != ""
    requires NoPieceIn(w.pieces(outfit), w.toSlot, OffHand)
    ensures var m := Loaded(outfit, w);
      var ws := PiecesFor(w.pieces(outfit), w.toSlot, Weapon);
      (OffHand in m <==> |ws| >= 2) && (OffHand in m ==> m[OffHand] == ws[|ws| - 1])
  {
    assert FreeAfter(0) == [Acc3, Acc2, Acc1];
    PlaceOffHand(map[], 0, w.pieces(outfit), w.toSlot);
  }

  /** With an outfit name, the accessory pieces fill acc1, acc2 and acc3 in list order. */
  lemma LoadedAccessories(outfit: string, w: Wardrobe, k: nat)
    requires outfit != "" && k < 3
    requires NoPieceIn(w.pieces(outfit), w.toSlot, Acc2) && NoPieceIn(w.pieces(outfit), w.toSlot, Acc3)
    ensures var m := Loaded(outfit, w);
      var accs := PiecesFor(w.pieces(outfit), w.toSlot, Acc1);
      (AccSlots[k] in m <==> k < |accs|) && (AccSlots[k] in m ==> m[AccSlots[k]] == accs[k])
  {
    assert FreeAfter(0) == [Acc3, Acc2, Acc1];
    PlaceAccessory(map[], 0, w.pieces(outfit), w.toSlot, k);
  }

  /** With an outfit name and more than three accessories, the last one is put in slot none. */
  lemma LoadedOverflow(outfit: string, w: Wardrobe)
    requires outfit != ""
    requires NoPieceIn(w.pieces(outfit), w.toSlot, NoSlot)
    requires |PiecesFor(w.pieces(outfit), w.toSlot, Acc1)| > 3
    ensures var m := Loaded(outfit, w);
      var accs := PiecesFor(w.pieces(outfit), w.toSlot, Acc1);
      NoSlot in m && m[NoSlot] == accs[|accs| - 1]
  {
    assert FreeAfter(0) == [Acc3, Acc2, Acc1];
    PlaceOverflow(map[], 0, w.pieces(outfit), w.toSlot);
  }

  // ---------------------------------------------------------------------------
  // cacheScore

  /** The slots among `slots` where both maps hold the same item. */
  function FixedOverlap(desired: map<Slot, Item>, items: map<Slot, Item>, slots: seq<Slot>): nat
  {
    if slots == [] then 0
    else (FixedOverlap(desired, items, slots[..|slots| - 1]) +
      (var s := slots[|slots| - 1]; if s in desired && s in items && desired[s] == items[s] then 1 else 0))
  }

  /** The item a map holds in slot `s`, as a multiset, unless `s` is in `except`. */
  function Entry(m: map<Slot, Item>, s: Slot, except: set<Slot>): multiset<Item>
  {
    if s in m && s !in except then multiset{m[s]} else multiset{}
  }

  /** The multiset of accessories a map holds, leaving out the slots in `except`. */
  function AccBag(m: map<Slot, Item>, except: set<Slot>): multiset<Item>
  {
    Entry(m, Acc1, except) + Entry(m, Acc2, except) + Entry(m, Acc3, except)
  }

  /** The multiset of accessories a map holds in the first `k` accessory slots. */
  function SeenBag(m: map<Slot, Item>, k: nat): multiset<Item>
    requires k <= 3
  {
    if k == 0 then multiset{} else SeenBag(m, k - 1) + Entry(m, AccSlots[k - 1], {})
  }

  /**
   * The score of a loaded outfit against the desired equipment: the fixed slots
   * holding the same item, plus the size of the multiset intersection of the two
   * accessory contents (a maximum matching whose edges join equal items).
   */
  function Score(desired: map<Slot, Item>, items: map<Slot, Item>): nat
  {
    FixedOverlap(desired, items, NonAccSlots) + |AccBag(items, {}) * AccBag(desired, {})|
  }

  /** The first accessory slot, in order, that is not yet matched and wants `acc`. */
  function FindUnmet(desired: map<Slot, Item>, met: set<Slot>, acc: Item): (r: Option<Slot>)
    ensures r.Some? ==> ((r.value == Acc1 || r.value == Acc2 || r.value == Acc3) &&
      r.value !in met && r.value in desired && desired[r.value] == acc)
    ensures r.None? ==> forall s :: s in AccSlots && s !in met && s in desired ==> desired[s] != acc
  {
    if Acc1 !in met && Acc1 in desired && desired[Acc1] == acc then Some(Acc1)
    else if Acc2 !in met && Acc2 in desired && desired[Acc2] == acc then Some(Acc2)
    else if Acc3 !in met && Acc3 in desired && desired[Acc3] == acc then Some(Acc3)
    else None
  }

  method CacheScore(desired: map<Slot, Item>, outfit: string, w: Wardrobe) returns (overlap: nat)
    ensures overlap == Score(desired, Loaded(outfit, w))
  {
    var items := LoadItems(outfit, w);
    var fixed := MatchFixedSlots(desired, items);
    var accessories := MatchAccessories(desired, items);
    overlap := fixed + accessories;
  }

  /** The first counting loop of cacheScore: the non-accessory slots holding the desired item. */
  method MatchFixedSlots(desired: map<Slot, Item>, items: map<Slot, Item>) returns (overlap: nat)
    ensures overlap == FixedOverlap(desired, items, NonAccSlots)
  {
    overlap := 0;
    for k := 0 to |NonAccSlots|
      invariant overlap == FixedOverlap(desired, items, NonAccSlots[..k])
    {
      var slot := NonAccSlots[k];
      assert NonAccSlots[..k + 1][..k] == NonAccSlots[..k];
      if slot in desired && slot in items && desired[slot] == items[slot] {
        overlap := overlap + 1;
      }
    }
    assert NonAccSlots[..|NonAccSlots|] == NonAccSlots;
  }

  /** The second counting loop of cacheScore: a greedy matching of loaded against desired accessories. */
  method MatchAccessories(desired: map<Slot, Item>, items: map<Slot, Item>) returns (overlap: nat)
    ensures overlap == |AccBag(items, {}) * AccBag(desired, {})|
  {
    overlap := 0;
    ghost var wanted := AccBag(desired, {});

    var desiredAccessoriesMet: set<Slot> := {};
    for k := 0 to |AccSlots|
      invariant overlap == |SeenBag(items, k) * wanted|
      invariant AccBag(desired, desiredAccessoriesMet) == wanted - SeenBag(items, k) * wanted
    {
      var slot := AccSlots[k];
      ghost var seen := SeenBag(items, k);
      assert SeenBag(items, k + 1) == seen + Entry(items, slot, {});
      if slot !in items {
        assert SeenBag(items, k + 1) == seen;
        continue;
      }
      var acc := items[slot];
      assert SeenBag(items, k + 1) == seen + multiset{acc};
      GreedyStep(desired, desiredAccessoriesMet, seen, wanted, acc);
      var matchedSlot := FindUnmet(desired, desiredAccessoriesMet, acc);
      if matchedSlot.Some? {
        desiredAccessoriesMet := desiredAccessoriesMet + {matchedSlot.value};
        overlap := overlap + 1;
      }
    }
    SeenAll(items);
  }

  lemma SeenAll(m: map<Slot, Item>)
    ensures SeenBag(m, 3) == AccBag(m, {})
  {
    assert SeenBag(m, 1) == Entry(m, Acc1, {}) by {
      assert multiset{} + Entry(m, Acc1, {}) == Entry(m, Acc1, {});
    }
  }

  /**
   * One step of the greedy matching keeps it maximal: the loaded accessory is matched
   * exactly when the multiset intersection grows by one.
   */
  lemma GreedyStep(desired: map<Slot, Item>, met: set<Slot>, seen: multiset<Item>, wanted: multiset<Item>, acc: Item)
    requires AccBag(desired, met) == wanted - seen * wanted
    ensures match FindUnmet(desired, met, acc)
      case Some(s) =>
        |(seen + multiset{acc}) * wanted| == |seen * wanted| + 1 &&
        AccBag(desired, met + {s}) == wanted - (seen + multiset{acc}) * wanted
      case None =>
        (seen + multiset{acc}) * wanted == seen * wanted
  {
    IntersectStep(seen, wanted, acc);
    match FindUnmet(desired, met, acc)
    case Some(s) =>
      RemainingHas(desired, met, acc);
      RemainingHit(desired, met, acc, s);
    case None =>
      RemainingMiss(desired, met, acc);
  }

  /** One greedy step: an accessory still wanted joins the intersection; otherwise the intersection stays. */
  lemma IntersectStep(seen: multiset<Item>, wanted: multiset<Item>, x: Item)
    ensures (wanted - seen * wanted)[x] > 0 ==>
      (seen + multiset{x}) * wanted == seen * wanted + multiset{x} &&
      wanted - (seen + multiset{x}) * wanted == (wanted - seen * wanted) - multiset{x}
    ensures (wanted - seen * wanted)[x] == 0 ==> (seen + multiset{x}) * wanted == seen * wanted
  {
    if (wanted - seen * wanted)[x] > 0 {
      assert (seen + multiset{x}) * wanted == seen * wanted + multiset{x} by {
        forall y ensures ((seen + multiset{x}) * wanted)[y] == (seen * wanted + multiset{x})[y] { }
      }
      assert wanted - (seen + multiset{x}) * wanted == (wanted - seen * wanted) - multiset{x} by {
        forall y ensures (wanted - (seen + multiset{x}) * wanted)[y] == ((wanted - seen * wanted) - multiset{x})[y] { }
      }
    } else {
      assert (seen + multiset{x}) * wanted == seen * wanted by {
        forall y ensures ((seen + multiset{x}) * wanted)[y] == (seen * wanted)[y] { }
      }
    }
  }

  /** The unmatched desired accessories lack `acc` when FindUnmet finds no slot for it. */
  lemma RemainingMiss(desired: map<Slot, Item>, met: set<Slot>, acc: Item)
    requires FindUnmet(desired, met, acc).None?
    ensures AccBag(desired, met)[acc] == 0
  {
  }

  /** Marking as met an unmatched accessory slot that wants `acc` removes one `acc` from the unmatched desired accessories. */
  lemma RemainingHit(desired: map<Slot, Item>, met: set<Slot>, acc: Item, s: Slot)
    requires s == Acc1 || s == Acc2 || s == Acc3
    requires s !in met && s in desired && desired[s] == acc
    ensures AccBag(desired, met + {s}) == AccBag(desired, met) - multiset{acc}
  {
    var e1, e2, e3 := Entry(desired, Acc1, met), Entry(desired, Acc2, met), Entry(desired, Acc3, met);
    var f1, f2, f3 := Entry(desired, Acc1, met + {s}), Entry(desired, Acc2, met + {s}), Entry(desired, Acc3, met + {s});
    EntryMark(desired, Acc1, met, s);
    EntryMark(desired, Acc2, met, s);
    EntryMark(desired, Acc3, met, s);
    RemoveFromThree(e1, e2, e3, f1, f2, f3, acc);
  }

  lemma EntryMark(m: map<Slot, Item>, t: Slot, met: set<Slot>, s: Slot)
    requires s !in met && s in m
    ensures Entry(m, t, met + {s}) == if t == s then multiset{} else Entry(m, t, met)
    ensures t == s ==> Entry(m, t, met) == multiset{m[s]}
  {
  }

  /** FindUnmet finds a slot only for an accessory the unmatched desired ones contain. */
  lemma RemainingHas(desired: map<Slot, Item>, met: set<Slot>, acc: Item)
    requires FindUnmet(desired, met, acc).Some?
    ensures AccBag(desired, met)[acc] > 0
  {
    var s := FindUnmet(desired, met, acc).value;
    if s == Acc1 {
      assert Entry(desired, Acc1, met)[acc] == 1;
    } else if s == Acc2 {
      assert Entry(desired, Acc2, met)[acc] == 1;
    } else {
      assert Entry(desired, Acc3, met)[acc] == 1;
    }
  }

  lemma RemoveFromThree(a: multiset<Item>, b: multiset<Item>, c: multiset<Item>,
                        a': multiset<Item>, b': multiset<Item>, c': multiset<Item>, x: Item)
    requires (a == multiset{x} && a' == multiset{} && b' == b && c' == c) ||
             (b == multiset{x} && b' == multiset{} && a' == a && c' == c) ||
             (c == multiset{x} && c' == multiset{} && a' == a && b' == b)
    ensures a' + b' + c' == (a + b + c) - multiset{x}
  {
    forall y ensures (a' + b' + c')[y] == ((a + b + c) - multiset{x})[y] { }
  }

  lemma {:induction false} FixedOverlapBound(desired: map<Slot, Item>, items: map<Slot, Item>, slots: seq<Slot>)
    ensures FixedOverlap(desired, items, slots) <= |slots|
  {
    if slots != [] {
      FixedOverlapBound(desired, items, slots[..|slots| - 1]);
    }
  }

  lemma {:induction false} FixedOverlapZero(desired: map<Slot, Item>, items: map<Slot, Item>, slots: seq<Slot>)
    requires forall i :: 0 <= i < |slots| ==> slots[i] !in desired
    ensures FixedOverlap(desired, items, slots) == 0
  {
    if slots != [] {
      FixedOverlapZero(desired, items, slots[..|slots| - 1]);
    }
  }

  /** The score never exceeds the nine outfit slots. */
  lemma ScoreBound(desired: map<Slot, Item>, items: map<Slot, Item>)
    ensures Score(desired, items) <= 9
  {
    FixedOverlapBound(desired, items, NonAccSlots);
    var mine := AccBag(items, {});
    var both := mine * AccBag(desired, {});
    assert both <= mine by {
      forall y ensures both[y] <= mine[y] { }
    }
    SubBagSize(both, mine);
  }

  lemma SubBagSize(a: multiset<Item>, b: multiset<Item>)
    requires a <= b
    ensures |a| <= |b|
  {
    assert b == a + (b - a) by {
      forall y ensures b[y] == (a + (b - a))[y] { }
    }
  }

  /** Accessory matching counts items, not positions: wanting {X, Y} while [X, X] is loaded scores 1. */
  lemma DuplicateAccessoryCountsOnce(x: Item, y: Item)
    requires x != y
    ensures Score(map[Acc1 := x, Acc2 := y], map[Acc1 := x, Acc2 := x]) == 1
  {
    var desired, items := map[Acc1 := x, Acc2 := y], map[Acc1 := x, Acc2 := x];
    FixedOverlapZero(desired, items, NonAccSlots);
    assert AccBag(items, {}) == multiset{x, x} by {
      assert Entry(items, Acc1, {}) == multiset{x} && Entry(items, Acc2, {}) == multiset{x} && Entry(items, Acc3, {}) == multiset{};
    }
    assert AccBag(desired, {}) == multiset{x, y} by {
      assert Entry(desired, Acc1, {}) == multiset{x} && Entry(desired, Acc2, {}) == multiset{y} && Entry(desired, Acc3, {}) == multiset{};
    }
    Intersections(x, y);
  }

  /** Accessory matching counts items, not positions: wanting [X, X] in acc1 and acc2 while acc2 and acc3 hold X scores 2. */
  lemma ShiftedAccessoriesMatch(x: Item)
    ensures Score(map[Acc1 := x, Acc2 := x], map[Acc2 := x, Acc3 := x]) == 2
  {
    var desired, items := map[Acc1 := x, Acc2 := x], map[Acc2 := x, Acc3 := x];
    FixedOverlapZero(desired, items, NonAccSlots);
    assert AccBag(items, {}) == multiset{x, x} by {
      assert Entry(items, Acc1, {}) == multiset{} && Entry(items, Acc2, {}) == multiset{x} && Entry(items, Acc3, {}) == multiset{x};
    }
    assert AccBag(desired, {}) == multiset{x, x} by {
      assert Entry(desired, Acc1, {}) == multiset{x} && Entry(desired, Acc2, {}) == multiset{x} && Entry(desired, Acc3, {}) == multiset{};
    }
    Intersections(x, x);
  }

  lemma Intersections(x: Item, y: Item)
    ensures x != y ==> multiset{x, x} * multiset{x, y} == multiset{x}
    ensures multiset{x, x} * multiset{x, x} == multiset{x, x}
  {
    if x != y {
      assert multiset{x, x} * multiset{x, y} == multiset{x} by {
        forall z ensures (multiset{x, x} * multiset{x, y})[z] == multiset{x}[z] { }
      }
    }
    assert multiset{x, x} * multiset{x, x} == multiset{x, x} by {
      forall z ensures (multiset{x, x} * multiset{x, x})[z] == multiset{x, x}[z] { }
    }
  }

  // ---------------------------------------------------------------------------
  // cacheDress

  /** The names of the six outfits the outfit cache keeps. */
  const CachedNames: seq<string> :=
    ["Script Outfit 0", "Script Outfit 1", "Script Outfit 2", "Script Outfit 3", "Script Outfit 4", "Script Outfit 5"]

  /** The position of the highest score; of several equal highest, the last one. */
  function LastMax(s: seq<int>): (k: nat)
    requires |s| > 0
    ensures k < |s|
    ensures forall j :: 0 <= j < |s| ==> s[j] <= s[k]
    ensures forall j :: k < j < |s| ==> s[j] < s[k]
  {
    if |s| == 1 then 0
    else
      var k := LastMax(s[..|s| - 1]);
      if s[|s| - 1] >= s[k] then |s| - 1 else k
  }

  lemma PrefixSnoc<T>(s: seq<T>, i: nat)
    requires i < |s|
    ensures s[..i + 1] == s[..i] + [s[i]]
  {
  }

  lemma LastMaxSnoc(s: seq<int>, x: int)
    requires |s| > 0
    ensures LastMax(s + [x]) == if x >= s[LastMax(s)] then |s| else LastMax(s)
  {
    assert (s + [x])[..|s|] == s;
  }

  /**
   * Stable ascending sorting then reversing puts first the last of the highest scores:
   * if `perm` lists the positions of `scores` in an order that is ascending by score
   * and, among equal scores, by position, then its last entry is LastMax(scores).
   */
  lemma SortThenReverseTop(scores: seq<int>, perm: seq<nat>)
    requires |scores| > 0 && |perm| == |scores|
    requires forall a :: 0 <= a < |perm| ==> perm[a] < |scores|
    requires forall i :: 0 <= i < |scores| ==> i in perm
    requires forall a, b :: 0 <= a < b < |perm| ==> scores[perm[a]] <= scores[perm[b]]
    requires forall a, b :: 0 <= a < b < |perm| && scores[perm[a]] == scores[perm[b]] ==> perm[a] < perm[b]
    ensures perm[|perm| - 1] == LastMax(scores)
  {
    assert LastMax(scores) in perm;
  }

  /**
   * The choice cacheDress makes from the current score and the cached outfits' scores:
   * the outfit sorted to the top (the last of the highest scores), and only when it
   * beats the current equipment by more than one.
   */
  function Pick(current: int, scores: seq<int>): (r: Option<nat>)
    requires |scores| > 0
    ensures r.Some? ==> (r.value < |scores| && scores[r.value] >= current + 2 &&
      (forall j :: 0 <= j < |scores| ==> scores[j] <= scores[r.value]) &&
      (forall j :: r.value < j < |scores| ==> scores[j] < scores[r.value]))
    ensures r.None? ==> forall j :: 0 <= j < |scores| ==> scores[j] <= current + 1
  {
    var top := LastMax(scores);
    if scores[top] > current + 1 then Some(top) else None
  }

  function CachedScores(desired: map<Slot, Item>, w: Wardrobe): seq<int>
  {
    seq(|CachedNames|, i requires 0 <= i < |CachedNames| => Score(desired, Loaded(CachedNames[i], w)))
  }

  method CacheDress(desired: map<Slot, Item>, w: Wardrobe) returns (adopted: Option<string>)
    ensures adopted == match Pick(Score(desired, Loaded("", w)), CachedScores(desired, w))
      case Some(i) => Some(CachedNames[i])
      case None => None
  {
    var currentEquipScore := CacheScore(desired, "", w);
    ghost var expected := CachedScores(desired, w);
    var scores: seq<int> := [];
    for i := 0 to |CachedNames|
      invariant scores == expected[..i]
    {
      var score := CacheScore(desired, CachedNames[i], w);
      assert score == expected[i];
      PrefixSnoc(expected, i);
      scores := scores + [score];
    }
    assert scores == expected;
    // the stable sort and reverse put LastMax first (SortThenReverseTop)
    var pick := Pick(currentEquipScore, scores);
    if pick.Some? {
      adopted := Some(CachedNames[pick.value]);
    } else {
      adopted := None;
    }
  }
}
