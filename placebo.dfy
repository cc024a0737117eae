/**
 * The placebo sorter: each statement sits in the unsorted pool or in one of
 * two buckets ("placebos can" / "placebos can't"); a click cycles it through
 * the three zones, a drop puts it straight into a bucket, and Check scores
 * the buckets against the statements' truth.
 */
module Placebo {
  import Scoring

  datatype Bucket = Can | Cant

  /** Where an item currently sits. */
  datatype Zone = Unsorted | InBucket(bucket: Bucket)

  datatype Item = Item(text: string, truth: Bucket)

  /** The fixed catalog of statements with the bucket each belongs in. */
  const Catalog: seq<Item> := [
    Item("Modulate subjective symptoms like fatigue or insomnia", Can),
    Item("Cure diseases or replace surgery", Cant),
    Item("Reduce anxiety through positive expectations", Can),
    Item("Lower cholesterol levels", Cant),
    Item("Trigger release of serotonin, dopamine, or oxytocin", Can),
    Item("Replace evidence-based medical treatments", Cant),
    Item("Help even when the patient knows it's a placebo (open-label)", Can),
    Item("Act as an effective cancer treatment", Cant)
  ]

  /** The marking Check leaves on an item. */
  datatype Mark = Unmarked | Correct | Wrong

  /** The three bands of the result message. */
  datatype Tier = Perfect | Good | KeepLearning

  datatype Result = Result(correct: nat, total: nat, pct: nat, tier: Tier)

  /** One click: unsorted, then "can", then "can't", then back. */
  function NextZone(z: Zone): (r: Zone)
    ensures r != z
    ensures r == Unsorted <==> z == InBucket(Cant)
  {
    match z
    case Unsorted => InBucket(Can)
    case InBucket(Can) => InBucket(Cant)
    case InBucket(Cant) => Unsorted
  }

  /** Three clicks bring an item back to where it was, and fewer never do. */
  lemma ClickCycle(z: Zone)
    ensures NextZone(NextZone(NextZone(z))) == z
    ensures NextZone(z) != z && NextZone(NextZone(z)) != z
  {
  }

  /** The number of items in bucket `b` that belong there. */
  function Matched(items: seq<Item>, zones: seq<Zone>, b: Bucket): (m: nat)
    requires |zones| == |items|
    ensures m <= |items|
  {
    if |items| == 0 then 0
    else
      var n := |items| - 1;
      Matched(items[..n], zones[..n], b) +
        (if zones[n] == InBucket(b) && items[n].truth == b then 1 else 0)
  }

  /** The number of items left in the unsorted pool. */
  function UnsortedCount(zones: seq<Zone>): nat {
    if |zones| == 0 then 0
    else UnsortedCount(zones[..|zones| - 1]) + (if zones[|zones| - 1] == Unsorted then 1 else 0)
  }

  /**
   * Check's count of correct placements, both buckets together.  Unsorted
   * items count toward neither bucket, so the correct placements and the
   * unsorted items together never exceed the catalog.
   */
  function CorrectCount(items: seq<Item>, zones: seq<Zone>): (c: nat)
    requires |zones| == |items|
    ensures c + UnsortedCount(zones) <= |items|
  {
    CorrectAndUnsortedBound(items, zones);
    Matched(items, zones, Can) + Matched(items, zones, Cant)
  }

  /** An item counts as correct only from the bucket its truth names. */
  predicate PlacedRight(item: Item, z: Zone) {
    z == InBucket(item.truth)
  }

  /**
   * An item adds to at most one of the two bucket counts and the pool, so
   * the three counts together never exceed the number of items.
   */
  lemma {:induction false} CorrectAndUnsortedBound(items: seq<Item>, zones: seq<Zone>)
    requires |zones| == |items|
    ensures Matched(items, zones, Can) + Matched(items, zones, Cant) + UnsortedCount(zones) <= |items|
  {
    if |items| > 0 {
      var n := |items| - 1;
      CorrectAndUnsortedBound(items[..n], zones[..n]);
    }
  }

  /** The last item adds one to the correct count exactly when it is placed right. */
  lemma CorrectCountLast(items: seq<Item>, zones: seq<Zone>)
    requires |zones| == |items| > 0
    ensures var n := |items| - 1;
      CorrectCount(items, zones) ==
        CorrectCount(items[..n], zones[..n]) + (if PlacedRight(items[n], zones[n]) then 1 else 0)
  {
    var n := |items| - 1;
    match zones[n]
    case Unsorted =>
    case InBucket(b) => assert b == Can || b == Cant;
  }

  /** All items correct, and only then, when every item is in its own bucket. */
  lemma {:induction false} FullCountIffAllRight(items: seq<Item>, zones: seq<Zone>)
    requires |zones| == |items|
    ensures CorrectCount(items, zones) == |items| <==>
            forall k :: 0 <= k < |items| ==> PlacedRight(items[k], zones[k])
  {
    if |items| > 0 {
      var n := |items| - 1;
      FullCountIffAllRight(items[..n], zones[..n]);
      CorrectCountLast(items, zones);
      if CorrectCount(items, zones) == |items| {
        forall k | 0 <= k < |items|
          ensures PlacedRight(items[k], zones[k])
        {
          if k < n {
            assert items[..n][k] == items[k] && zones[..n][k] == zones[k];
          }
        }
      }
      if forall k :: 0 <= k < |items| ==> PlacedRight(items[k], zones[k]) {
        assert forall k :: 0 <= k < n ==> PlacedRight(items[..n][k], zones[..n][k]);
        assert CorrectCount(items[..n], zones[..n]) == n;
      }
    }
  }

  /** The message band of a percentage: perfect at 100, good from 50. */
  function TierOf(pct: nat): (t: Tier)
    ensures t == Perfect <==> pct == 100
    ensures t == KeepLearning <==> pct < 50
  {
    if pct == 100 then Perfect else if pct >= 50 then Good else KeepLearning
  }

  /**
   * Over the eight-statement catalog: "perfect" exactly when all eight are
   * right, "good" from four right, "keep learning" below that.
   */
  lemma TierBands(correct: nat)
    requires correct <= |Catalog|
    ensures var tier := TierOf(Scoring.RoundedPercent(correct, |Catalog|));
      && (tier == Perfect <==> correct == 8)
      && (tier == Good <==> 4 <= correct < 8)
      && (tier == KeepLearning <==> correct < 4)
  {
  }

  class PlaceboGame {
    /** The statements in presentation order. */
    const items: seq<Item>
    var zones: seq<Zone>
    var marks: seq<Mark>
    /** The result is showing: the check button is hidden and reset shown. */
    var showingResult: bool

    ghost predicate Valid()
      reads this
    {
      && |items| == |Catalog|
      && |zones| == |items|
      && |marks| == |items|
      && (!showingResult ==> forall k :: 0 <= k < |marks| ==> marks[k] == Unmarked)
    }

    /** Starting the game with the statements in the order the shuffle produced. */
    constructor (shuffled: seq<Item>)
      requires multiset(shuffled) == multiset(Catalog)
      ensures Valid() && items == shuffled
      ensures forall k :: 0 <= k < |zones| ==> zones[k] == Unsorted
      ensures !showingResult
    {
      items := shuffled;
      new;
      assert |multiset(shuffled)| == |multiset(Catalog)|;
      RenderItems();
    }

    /** Puts every item back in the unsorted pool, unmarked, with the check button shown. */
    method RenderItems()
      requires |items| == |Catalog|
      modifies this
      ensures Valid()
      ensures |zones| == |items| && forall k :: 0 <= k < |zones| ==> zones[k] == Unsorted
      ensures |marks| == |items| && forall k :: 0 <= k < |marks| ==> marks[k] == Unmarked
      ensures !showingResult
    {
      zones := seq(|items|, _ => Unsorted);
      marks := seq(|items|, _ => Unmarked);
      showingResult := false;
    }

    /** A click on item `i` moves it one zone along the cycle. */
    method Click(i: nat)
      requires Valid() && i < |items|
      modifies this
      ensures Valid()
      ensures zones == old(zones)[i := NextZone(old(zones)[i])]
      ensures marks == old(marks) && showingResult == old(showingResult)
    {
      zones := zones[i := NextZone(zones[i])];
    }

    /**
     * A drop of the dragged item with index `idx` on bucket `target`; an
     * index that names no item leaves everything as it was.
     */
    method Drop(idx: int, target: Bucket)
      requires Valid()
      modifies this
      ensures Valid()
      ensures 0 <= idx < |items| ==> zones == old(zones)[idx := InBucket(target)]
      ensures !(0 <= idx < |items|) ==> zones == old(zones)
      ensures 0 <= idx < |items| && old(zones)[idx] == InBucket(target) ==> zones == old(zones)
      ensures marks == old(marks) && showingResult == old(showingResult)
    {
      if 0 <= idx < |items| {
        zones := zones[idx := InBucket(target)];
      }
    }

    /**
     * Marks the items in bucket `b` correct or wrong and counts the correct
     * ones; every other item keeps its mark.
     */
    method MarkBucket(b: Bucket) returns (correct: nat)
      requires |zones| == |items| && |marks| == |items|
      modifies this`marks
      ensures correct == Matched(items, zones, b)
      ensures |marks| == |items|
      ensures forall k :: 0 <= k < |marks| ==>
        marks[k] == (if zones[k] == InBucket(b) then (if items[k].truth == b then Correct else Wrong) else old(marks)[k])
    {
      correct := 0;
      var n := 0;
      while n < |items|
        invariant n <= |items| && |marks| == |items|
        invariant correct == Matched(items[..n], zones[..n], b)
        invariant forall k :: 0 <= k < n ==>
          marks[k] == (if zones[k] == InBucket(b) then (if items[k].truth == b then Correct else Wrong) else old(marks)[k])
        invariant forall k :: n <= k < |marks| ==> marks[k] == old(marks)[k]
      {
        assert items[..n + 1][..n] == items[..n] && zones[..n + 1][..n] == zones[..n];
        if zones[n] == InBucket(b) {
          if items[n].truth == b {
            marks := marks[n := Correct];
            correct := correct + 1;
          } else {
            marks := marks[n := Wrong];
          }
        }
        n := n + 1;
      }
      assert items[..n] == items && zones[..n] == zones;
    }

    /** The check button: marks both buckets and scores against the whole catalog. */
    method Check() returns (result: Result)
      requires Valid() && !showingResult
      modifies this
      ensures Valid() && zones == old(zones) && showingResult
      ensures result.correct == CorrectCount(items, zones)
      ensures result.total == |items|
      ensures result.correct <= result.total
      ensures result.pct == Scoring.RoundedPercent(result.correct, result.total)
      ensures result.tier == TierOf(result.pct)
      ensures forall k :: 0 <= k < |marks| ==>
        marks[k] == (if zones[k] == Unsorted then Unmarked
                     else if PlacedRight(items[k], zones[k]) then Correct else Wrong)
    {
      ghost var unmarked := marks;
      var inCan := MarkBucket(Can);
      ghost var canMarked := marks;
      var inCant := MarkBucket(Cant);
      forall k | 0 <= k < |marks|
        ensures marks[k] == (if zones[k] == Unsorted then Unmarked
                             else if PlacedRight(items[k], zones[k]) then Correct else Wrong)
      {
        assert unmarked[k] == Unmarked;
        assert canMarked[k] == (if zones[k] == InBucket(Can) then (if items[k].truth == Can then Correct else Wrong) else Unmarked);
        assert marks[k] == (if zones[k] == InBucket(Cant) then (if items[k].truth == Cant then Correct else Wrong) else canMarked[k]);
        match zones[k]
        case Unsorted =>
        case InBucket(b) => assert b == Can || b == Cant;
      }
      var correct := inCan + inCant;
      var total := |items|;
      var pct := Scoring.RoundedPercent(correct, total);
      result := Result(correct, total, pct, TierOf(pct));
      showingResult := true;
    }

    /** The reset button: clears the marks and lays the items out again. */
    method Reset()
      requires Valid()
      modifies this
      ensures Valid()
      ensures forall k :: 0 <= k < |zones| ==> zones[k] == Unsorted
      ensures !showingResult
    {
      marks := seq(|items|, _ => Unmarked);
      RenderItems();
    }
  }

  /** A sort with every statement in its own bucket scores 100% with the "perfect" message. */
  lemma AllRightIsPerfect(items: seq<Item>, zones: seq<Zone>)
    requires |items| == |Catalog| && |zones| == |items|
    requires forall k :: 0 <= k < |items| ==> PlacedRight(items[k], zones[k])
    ensures Scoring.RoundedPercent(CorrectCount(items, zones), |items|) == 100
    ensures TierOf(Scoring.RoundedPercent(CorrectCount(items, zones), |items|)) == Perfect
  {
    FullCountIffAllRight(items, zones);
  }
}
