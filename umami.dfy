/**
 * The umami sandbox: the player puts up to five foods on a plate; the plate's
 * umami is the sum of the foods' fixed scores, amplified by 1.8 when a
 * glutamate food meets an inosinate or guanylate food (the synergy).
 */
module Umami {

  datatype Kind = Glutamate | Inosinate | Guanylate | NoUmami

  datatype Food = Food(name: string, kind: Kind, umami: nat)

  /** The fixed catalog, in display order; a selection holds indices into it. */
  const Foods: seq<Food> := [
    Food("Tomato", Glutamate, 15),
    Food("Parmesan", Glutamate, 25),
    Food("Shiitake", Guanylate, 20),
    Food("Sardine", Inosinate, 18),
    Food("Beef", Inosinate, 16),
    Food("Chicken", Inosinate, 14),
    Food("Soy beans", Glutamate, 12),
    Food("Kombu", Glutamate, 30),
    Food("Asparagus", Glutamate, 8),
    Food("Sugar", NoUmami, 0),
    Food("Salt", NoUmami, 2),
    Food("Lemon", NoUmami, 1)
  ]

  const MaxSelected: nat := 5
  const MaxUmami: nat := 100
  /** The highest score of a single food (Kombu). */
  const MaxFoodUmami: nat := 30

  /** Colour of the displayed umami value. */
  datatype ValueColor = Magenta | Yellow | Muted

  /** Guidance line under the plate. */
  datatype Hint = SynergyReached | AddNucleotide | AddGlutamate | NoHint

  /** Everything `updatePlate` shows for a selection. */
  datatype Plate = Plate(total: nat, synergy: bool, fill: nat, color: ValueColor, hint: Hint)

  predicate Distinct(s: seq<nat>) {
    forall j, k :: 0 <= j < k < |s| ==> s[j] != s[k]
  }

  predicate InCatalog(s: seq<nat>) {
    forall k :: 0 <= k < |s| ==> s[k] < |Foods|
  }

  /** What the game keeps true of its selection list. */
  predicate ValidSelection(s: seq<nat>) {
    |s| <= MaxSelected && Distinct(s) && InCatalog(s)
  }

  function Elems(s: seq<nat>): set<nat> {
    set x | x in s
  }

  /** Array.prototype.indexOf: the first position of `x`, or -1. */
  function IndexOf(s: seq<nat>, x: nat): (k: int)
    ensures -1 <= k < |s|
    ensures k == -1 <==> x !in s
    ensures 0 <= k ==> s[k] == x && x !in s[..k]
  {
    if |s| == 0 then -1
    else if s[0] == x then 0
    else
      var k := IndexOf(s[1..], x);
      assert s[1..][..if k < 0 then 0 else k] == s[1..if k < 0 then 1 else k + 1];
      if k == -1 then -1 else k + 1
  }

  /**
   * The selection after clicking food `i`: a selected food is removed, a new
   * one is appended unless five are already chosen, in which case nothing
   * changes.
   */
  function Toggled(s: seq<nat>, i: nat): (r: seq<nat>)
    requires ValidSelection(s) && i < |Foods|
    ensures ValidSelection(r)
    ensures i in s ==> Elems(r) == Elems(s) - {i} && |r| == |s| - 1
    ensures i !in s && |s| < MaxSelected ==> r == s + [i]
    ensures i !in s && |s| >= MaxSelected ==> r == s
  {
    var k := IndexOf(s, i);
    if k > -1 then
      RemoveAtElems(s, k);
      s[..k] + s[k + 1..]
    else if |s| >= MaxSelected then s
    else s + [i]
  }

  lemma RemoveAtElems(s: seq<nat>, k: nat)
    requires Distinct(s) && InCatalog(s) && k < |s|
    ensures var r := s[..k] + s[k + 1..];
      Distinct(r) && InCatalog(r) && Elems(r) == Elems(s) - {s[k]}
  {
  }

  /** The umami of the selected foods, added up before any synergy. */
  function PlainSum(s: seq<nat>): (sum: nat)
    requires InCatalog(s)
    ensures sum <= MaxFoodUmami * |s|
  {
    if |s| == 0 then 0
    else
      FoodUmamiBound(s[|s| - 1]);
      PlainSum(s[..|s| - 1]) + Foods[s[|s| - 1]].umami
  }

  lemma FoodUmamiBound(x: nat)
    requires x < |Foods|
    ensures Foods[x].umami <= MaxFoodUmami
  {
  }

  /** Some selected food is of kind `t`. */
  predicate HasKind(s: seq<nat>, t: Kind) {
    exists x :: x in s && x < |Foods| && Foods[x].kind == t
  }

  /**
   * Glutamate together with inosinate or guanylate.  A food has one kind, so
   * the synergy takes at least two foods.
   */
  function Synergy(s: seq<nat>): (b: bool)
    ensures b ==> 2 <= |s|
  {
    SynergyNeedsTwo(s);
    HasKind(s, Glutamate) && (HasKind(s, Inosinate) || HasKind(s, Guanylate))
  }

  lemma SynergyNeedsTwo(s: seq<nat>)
    ensures HasKind(s, Glutamate) && (HasKind(s, Inosinate) || HasKind(s, Guanylate)) ==> 2 <= |s|
  {
    if HasKind(s, Glutamate) && (HasKind(s, Inosinate) || HasKind(s, Guanylate)) {
      var x :| x in s && x < |Foods| && Foods[x].kind == Glutamate;
      var y :| y in s && y < |Foods| && Foods[y].kind != Glutamate && Foods[y].kind != NoUmami;
      assert x != y;
    }
  }

  /**
   * `Math.round(sum * 1.8)`.  Nine fifths of a whole number has a fractional
   * part of 0, .2, .4, .6 or .8, never one half, so the rounding has no tie to
   * break and the integer quotient below is exact.
   */
  function Amplified(sum: nat): (r: nat)
    ensures 10 * r - 5 < 18 * sum < 10 * r + 5
    ensures (r as real) - 0.5 < (sum as real) * 1.8 < (r as real) + 0.5
    ensures sum <= r
  {
    (18 * sum + 5) / 10
  }

  /**
   * The umami value shown for a selection.  Synergy never lowers it: with
   * synergy it is the plain sum times 1.8, rounded, otherwise the plain sum.
   * A full plate of five can go past the 100-point bar, up to 270.
   */
  function Total(s: seq<nat>): (t: nat)
    requires InCatalog(s)
    ensures PlainSum(s) <= t
    ensures Synergy(s) ==> 10 * t - 5 < 18 * PlainSum(s) < 10 * t + 5
    ensures !Synergy(s) ==> t == PlainSum(s)
    ensures |s| <= MaxSelected ==> t <= 270
  {
    if Synergy(s) then Amplified(PlainSum(s)) else PlainSum(s)
  }

  /** Width of the fill bar, in percent of the 100-point reference. */
  function Fill(total: nat): (pct: nat)
    ensures pct <= MaxUmami
    ensures pct == total || (total > MaxUmami && pct == MaxUmami)
  {
    if total < MaxUmami then total else MaxUmami
  }

  /** The value turns magenta above 60 and yellow above 30. */
  function ColorOf(total: nat): (c: ValueColor)
    ensures c == Magenta <==> total > 60
    ensures c == Muted <==> total <= 30
  {
    if total > 60 then Magenta else if total > 30 then Yellow else Muted
  }

  /**
   * The guidance line: shown exactly when the plate holds something, and
   * announcing the synergy exactly when it is reached.
   */
  function HintOf(s: seq<nat>): (h: Hint)
    ensures h == NoHint <==> |s| == 0
    ensures h == SynergyReached <==> Synergy(s)
    ensures h == AddNucleotide <==> |s| > 0 && HasKind(s, Glutamate) && !Synergy(s)
    ensures h == AddGlutamate <==> |s| > 0 && !HasKind(s, Glutamate)
  {
    if Synergy(s) then SynergyReached
    else if |s| > 0 && HasKind(s, Glutamate) then AddNucleotide
    else if |s| > 0 then AddGlutamate
    else NoHint
  }

  class UmamiGame {
    var selected: seq<nat>

    ghost predicate Valid()
      reads this
    {
      ValidSelection(selected)
    }

    /** A new game starts with an empty plate. */
    constructor ()
      ensures Valid() && selected == []
    {
      selected := [];
    }

    /** A click on food `i` of the catalog. */
    method ToggleFood(i: nat)
      requires Valid() && i < |Foods|
      modifies this
      ensures Valid()
      ensures selected == Toggled(old(selected), i)
    {
      var idx := IndexOf(selected, i);
      if idx > -1 {
        selected := selected[..idx] + selected[idx + 1..];
      } else {
        if |selected| >= MaxSelected {
          return;
        }
        selected := selected + [i];
      }
    }

    /** Recomputes what the plate shows, walking the selection once. */
    method UpdatePlate() returns (plate: Plate)
      requires Valid()
      ensures plate.total == Total(selected)
      ensures plate.synergy == Synergy(selected)
      ensures plate.fill == Fill(plate.total)
      ensures plate.color == ColorOf(plate.total)
      ensures plate.hint == HintOf(selected)
    {
      var totalUmami := 0;
      var hasGlutamate, hasInosinate, hasGuanylate := false, false, false;
      var n := 0;
      while n < |selected|
        invariant n <= |selected|
        invariant totalUmami == PlainSum(selected[..n])
        invariant hasGlutamate == HasKind(selected[..n], Glutamate)
        invariant hasInosinate == HasKind(selected[..n], Inosinate)
        invariant hasGuanylate == HasKind(selected[..n], Guanylate)
      {
        var food := Foods[selected[n]];
        PrefixStep(selected, n);
        totalUmami := totalUmami + food.umami;
        if food.kind == Glutamate { hasGlutamate := true; }
        if food.kind == Inosinate { hasInosinate := true; }
        if food.kind == Guanylate { hasGuanylate := true; }
        n := n + 1;
      }
      assert selected[..n] == selected;
      var synergy := false;
      if hasGlutamate && (hasInosinate || hasGuanylate) {
        totalUmami := Amplified(totalUmami);
        synergy := true;
      }
      var hint := if synergy then SynergyReached
        else if |selected| > 0 && hasGlutamate then AddNucleotide
        else if |selected| > 0 then AddGlutamate
        else NoHint;
      plate := Plate(totalUmami, synergy, Fill(totalUmami), ColorOf(totalUmami), hint);
    }

    /** The reset button empties the plate. */
    method Reset()
      modifies this
      ensures Valid() && selected == []
    {
      selected := [];
    }
  }

  /** One more food of the list: its score joins the sum and its kind joins the kinds. */
  lemma PrefixStep(s: seq<nat>, n: nat)
    requires InCatalog(s) && n < |s|
    ensures InCatalog(s[..n]) && InCatalog(s[..n + 1])
    ensures PlainSum(s[..n + 1]) == PlainSum(s[..n]) + Foods[s[n]].umami
    ensures forall t :: HasKind(s[..n + 1], t) <==> HasKind(s[..n], t) || Foods[s[n]].kind == t
  {
    assert s[..n + 1] == s[..n] + [s[n]];
    HasKindSnoc(s[..n], s[n]);
    PlainSumSnoc(s[..n], s[n]);
  }

  lemma HasKindSnoc(s: seq<nat>, x: nat)
    requires x < |Foods|
    ensures forall t :: HasKind(s + [x], t) <==> HasKind(s, t) || Foods[x].kind == t
  {
  }

  /** The plain sum splits over a concatenation. */
  lemma {:induction false} PlainSumAppend(a: seq<nat>, b: seq<nat>)
    requires InCatalog(a) && InCatalog(b)
    ensures InCatalog(a + b) && PlainSum(a + b) == PlainSum(a) + PlainSum(b)
  {
    if |b| == 0 {
      assert a + b == a;
    } else {
      var b' := b[..|b| - 1];
      assert (a + b)[..|a + b| - 1] == a + b';
      PlainSumAppend(a, b');
    }
  }

  /** A food in the middle of the list adds its score to the rest. */
  lemma PlainSumMiddle(a: seq<nat>, x: nat, b: seq<nat>)
    requires InCatalog(a) && InCatalog(b) && x < |Foods|
    ensures InCatalog(a + [x] + b) && InCatalog(a + b)
    ensures PlainSum(a + [x] + b) == PlainSum(a + b) + Foods[x].umami
  {
    PlainSumSnoc(a, x);
    PlainSumAppend(a + [x], b);
    PlainSumAppend(a, b);
  }

  /** Adding one food raises the plain sum by that food's score. */
  lemma PlainSumSnoc(s: seq<nat>, x: nat)
    requires InCatalog(s) && x < |Foods|
    ensures InCatalog(s + [x]) && PlainSum(s + [x]) == PlainSum(s) + Foods[x].umami
  {
  }

  /** Whether a kind is present depends only on which foods are selected. */
  lemma HasKindElems(a: seq<nat>, b: seq<nat>, t: Kind)
    requires Elems(a) == Elems(b)
    ensures HasKind(a, t) == HasKind(b, t)
  {
    if HasKind(a, t) {
      var x :| x in a && x < |Foods| && Foods[x].kind == t;
      assert x in Elems(b);
    }
    if HasKind(b, t) {
      var x :| x in b && x < |Foods| && Foods[x].kind == t;
      assert x in Elems(a);
    }
  }

  /**
   * Clicking the same food twice, when the first click is not refused by the
   * cap, gives back the same set of foods and the same total; a food that was
   * added and removed again leaves the very same list.
   */
  lemma ToggleTwice(s: seq<nat>, i: nat)
    requires ValidSelection(s) && i < |Foods|
    requires i in s || |s| < MaxSelected
    ensures Elems(Toggled(Toggled(s, i), i)) == Elems(s)
    ensures Total(Toggled(Toggled(s, i), i)) == Total(s)
    ensures i !in s ==> Toggled(Toggled(s, i), i) == s
  {
    var once := Toggled(s, i);
    var twice := Toggled(once, i);
    if i in s {
      var k := IndexOf(s, i);
      var a, b := s[..k], s[k + 1..];
      assert once == a + b;
      assert twice == a + b + [i];
      assert s == a + [i] + b;
      assert InCatalog(a) && InCatalog(b);
      MoveToEnd(a, i, b);
      SameFoodsSameTotal(twice, s);
    } else {
      assert once == s + [i];
      assert IndexOf(once, i) == |s|;
      assert twice == s;
    }
  }

  /** Moving a food to the end of the list keeps the foods and their plain sum. */
  lemma MoveToEnd(a: seq<nat>, x: nat, b: seq<nat>)
    requires InCatalog(a) && InCatalog(b) && x < |Foods|
    ensures InCatalog(a + b + [x]) && InCatalog(a + [x] + b)
    ensures Elems(a + b + [x]) == Elems(a + [x] + b)
    ensures PlainSum(a + b + [x]) == PlainSum(a + [x] + b)
  {
    PlainSumAppend(a, b);
    PlainSumSnoc(a + b, x);
    PlainSumMiddle(a, x, b);
  }

  /** Two lists of the same foods with the same plain sum show the same total. */
  lemma SameFoodsSameTotal(a: seq<nat>, b: seq<nat>)
    requires InCatalog(a) && InCatalog(b)
    requires Elems(a) == Elems(b) && PlainSum(a) == PlainSum(b)
    ensures Total(a) == Total(b)
  {
    HasKindElems(a, b, Glutamate);
    HasKindElems(a, b, Inosinate);
    HasKindElems(a, b, Guanylate);
  }

  /** Parmesan with Sardine: (25 + 18) * 1.8 = 77.4, shown as 77 with synergy. */
  lemma ParmesanSardine()
    ensures Synergy([1, 3]) && Total([1, 3]) == 77
  {
    assert 1 in [1, 3] && Foods[1].kind == Glutamate;
    assert 3 in [1, 3] && Foods[3].kind == Inosinate;
    assert PlainSum([1, 3]) == 43 by {
      assert [1, 3][..1] == [1];
      assert [1][..0] == [];
    }
  }

  /** Sugar with Salt: no umami kind at all, so the plain sum 2 is shown. */
  lemma SugarSalt()
    ensures !Synergy([9, 10]) && Total([9, 10]) == 2
  {
    assert !HasKind([9, 10], Glutamate);
    assert PlainSum([9, 10]) == 2 by {
      assert [9, 10][..1] == [9];
      assert [9][..0] == [];
    }
  }

  /** The empty plate after a reset shows nothing. */
  lemma EmptyPlate()
    ensures Total([]) == 0 && !Synergy([]) && Fill(0) == 0 && HintOf([]) == NoHint
  {
  }
}
