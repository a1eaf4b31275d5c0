/** Splitting a system refund over the items of an order in proportion to their totals. */
module RefundAllocation {
  import opened Sums
  import opened Machine

  function Id(): int -> int { (x: int) => x }

  /** Only positive totals carry weight. */
  function Positive(): int -> int { (x: int) => if x > 0 then x else 0 }

  function Weight(totals: seq<int>): int { Sum(Positive(), totals) }

  /** Go's truncating division of a 64-bit product by a positive weight. */
  function Part(amount: int, total: int, weight: int): int
    requires weight > 0
  {
    var product := Wrap64(amount * total);
    if product >= 0 then product / weight else -(-product / weight)
  }

  /** The share of an item other than the last. */
  function Share(amount: int, total: int, weight: int): int
    requires weight > 0
  {
    if total > 0 then Part(amount, total, weight) else 0
  }

  function Assigned(amount: int, totals: seq<int>, weight: int, n: nat): int
    requires weight > 0 && n <= |totals|
  {
    if n == 0 then 0 else Assigned(amount, totals, weight, n - 1) + Share(amount, totals[n - 1], weight)
  }

  /** What the loop fills in; the last item absorbs the rounding. */
  function Shares(totals: seq<int>, amount: int): (r: seq<int>)
    ensures |r| == |totals|
  {
    var n, weight := |totals|, Weight(totals);
    seq(n, i requires 0 <= i < n =>
      if amount <= 0 then 0
      else if weight <= 0 then (if i == n - 1 then amount else 0)
      else if i == n - 1 then amount - Assigned(amount, totals, weight, n - 1)
      else Share(amount, totals[i], weight))
  }

  /** Fills a fresh slice in place. */
  method AllocateSystemRefund(totals: seq<int>, amount: int) returns (result: array<int>)
    ensures fresh(result) && result[..] == Shares(totals, amount)
  {
    result := new int[|totals|](_ => 0);
    assert forall k :: 0 <= k < |totals| ==> result[k] == 0;
    if |totals| == 0 || amount <= 0 {
      assert result[..] == Shares(totals, amount);
      return;
    }
    var weight := 0;
    for i := 0 to |totals|
      invariant weight == Weight(totals[..i])
      invariant forall k :: 0 <= k < |totals| ==> result[k] == 0
    {
      assert totals[..i + 1] == totals[..i] + [totals[i]];
      SumSnoc(Positive(), totals[..i], totals[i]);
      if totals[i] > 0 {
        weight := weight + totals[i];
      }
    }
    assert totals[..|totals|] == totals;
    if weight <= 0 {
      result[result.Length - 1] := amount;
      assert result[..] == Shares(totals, amount);
      return;
    }
    var given := 0;
    for index := 0 to |totals|
      invariant given == Assigned(amount, totals, weight, if index == |totals| then index - 1 else index)
      invariant forall k :: 0 <= k < index ==> result[k] == Shares(totals, amount)[k]
      invariant forall k :: index <= k < |totals| ==> result[k] == 0
    {
      if index == |totals| - 1 {
        result[index] := amount - given;
      } else if totals[index] > 0 {
        result[index] := Part(amount, totals[index], weight);
        given := given + result[index];
      }
    }
  }

  // ----- what the shares add up to

  /** The bound under which no product leaves 64 bits. */
  predicate Bounded(totals: seq<int>, amount: int) {
    0 <= amount && amount * Weight(totals) <= MAX_INT64
  }

  lemma {:induction false} WeightOfPart(totals: seq<int>, n: nat)
    requires n <= |totals|
    ensures 0 <= Weight(totals[..n]) <= Weight(totals)
    ensures n < |totals| ==> Weight(totals[..n]) + Positive()(totals[n]) <= Weight(totals)
  {
    assert totals == totals[..n] + totals[n..];
    SumAppend(Positive(), totals[..n], totals[n..]);
    SumNonNegative(Positive(), totals[..n]);
    SumNonNegative(Positive(), totals[n..]);
    if n < |totals| {
      SumAtLeast(Positive(), totals[n..], 0);
    }
  }

  lemma ProductFits(totals: seq<int>, amount: int, i: nat)
    requires Bounded(totals, amount) && i < |totals| && totals[i] > 0
    ensures 0 <= amount * totals[i] <= amount * Weight(totals) && Wrap64(amount * totals[i]) == amount * totals[i]
  {
    WeightOfPart(totals, i);
    assert totals[i] <= Weight(totals);
    assert amount * totals[i] <= amount * Weight(totals);
  }

  lemma Division(p: int, w: int)
    requires p >= 0 && w > 0
    ensures 0 <= p / w && (p / w) * w <= p < (p / w + 1) * w && p - (p / w) * w == p % w
  {
    assert p == (p / w) * w + p % w;
    assert (p / w + 1) * w == (p / w) * w + w;
  }

  /** Each share but the last is the floor of its exact part. */
  lemma ShareIsFloor(totals: seq<int>, amount: int, i: nat)
    requires Bounded(totals, amount) && i < |totals| && Weight(totals) > 0
    ensures var weight, share := Weight(totals), Share(amount, totals[i], Weight(totals));
            && 0 <= share && share * weight <= amount * Positive()(totals[i]) < (share + 1) * weight
            && amount * Positive()(totals[i]) - share * weight == (amount * Positive()(totals[i])) % weight
  {
    var weight, own := Weight(totals), Positive()(totals[i]);
    if totals[i] > 0 {
      ProductFits(totals, amount, i);
    } else {
      assert amount * own == 0;
    }
    Division(amount * own, weight);
    assert Share(amount, totals[i], weight) == (amount * own) / weight by {
      hide Wrap64, Sum;
      if totals[i] <= 0 { DivideZero(weight); }
    }
  }

  lemma DivideZero(weight: int)
    requires weight > 0
    ensures 0 / weight == 0
  {
  }

  /** The shares given out before item `n`, scaled by the weight: their exact parts less what rounding cut off. */
  function CutOff(totals: seq<int>, amount: int, weight: int, n: nat): int
    requires weight > 0 && n <= |totals|
  {
    if n == 0 then 0 else CutOff(totals, amount, weight, n - 1) + (amount * Positive()(totals[n - 1])) % weight
  }

  lemma {:induction false} AssignedExactly(totals: seq<int>, amount: int, n: nat)
    requires Bounded(totals, amount) && n <= |totals| && Weight(totals) > 0
    ensures var weight := Weight(totals);
            && weight * Assigned(amount, totals, weight, n)
               == amount * Weight(totals[..n]) - CutOff(totals, amount, weight, n)
            && 0 <= Assigned(amount, totals, weight, n) <= amount
            && 0 <= CutOff(totals, amount, weight, n) <= n * (weight - 1)
  {
    hide Sum, Share, Bounded;
    var weight := Weight(totals);
    WeightOfPart(totals, n);
    if n == 0 {
      assert totals[..0] == [];
      EmptyWeight();
    } else {
      AssignedExactly(totals, amount, n - 1);
      ShareIsFloor(totals, amount, n - 1);
      var own, share := Positive()(totals[n - 1]), Share(amount, totals[n - 1], weight);
      assert totals[..n] == totals[..n - 1] + [totals[n - 1]];
      SumSnoc(Positive(), totals[..n - 1], totals[n - 1]);
      AddShare(weight, amount, Assigned(amount, totals, weight, n - 1), share, Weight(totals[..n - 1]), own,
               CutOff(totals, amount, weight, n - 1), (amount * own) % weight, n);
    }
    assert amount >= 0 by { BoundedAmount(totals, amount); }
    AtMost(weight, Assigned(amount, totals, weight, n), amount, Weight(totals[..n]), CutOff(totals, amount, weight, n));
  }

  lemma EmptyWeight()
    ensures Weight([]) == 0
  {
  }

  lemma BoundedAmount(totals: seq<int>, amount: int)
    requires Bounded(totals, amount)
    ensures amount >= 0
  {
  }

  lemma AddShare(weight: int, amount: int, given: int, share: int, rest: int, own: int, cut: int, more: int, n: nat)
    requires weight > 0 && n > 0 && weight * given == amount * rest - cut && amount * own - share * weight == more
    requires 0 <= more < weight && 0 <= cut <= (n - 1) * (weight - 1)
    ensures weight * (given + share) == amount * (rest + own) - (cut + more)
    ensures 0 <= cut + more <= n * (weight - 1)
  {
    assert weight * (given + share) == weight * given + share * weight;
    assert amount * (rest + own) == amount * rest + amount * own;
    assert n * (weight - 1) == (n - 1) * (weight - 1) + (weight - 1);
  }

  lemma Cancel(w: int, a: int, b: int)
    requires w > 0 && w * a <= w * b
    ensures a <= b
  {
    assert w * (b - a) >= 0;
  }

  lemma AtMost(weight: int, given: int, amount: int, part: int, cut: int)
    requires weight > 0 && amount >= 0 && cut >= 0 && 0 <= part <= weight && weight * given == amount * part - cut
    ensures given <= amount
  {
    assert amount * part <= amount * weight;
    Cancel(weight, given, amount);
  }

  lemma {:induction false} SharesPrefix(totals: seq<int>, amount: int, n: nat)
    requires amount > 0 && Weight(totals) > 0 && n < |totals|
    ensures Sum(Id(), Shares(totals, amount)[..n]) == Assigned(amount, totals, Weight(totals), n)
  {
    if n > 0 {
      SharesPrefix(totals, amount, n - 1);
      assert Shares(totals, amount)[..n] == Shares(totals, amount)[..n - 1] + [Shares(totals, amount)[n - 1]];
      SumSnoc(Id(), Shares(totals, amount)[..n - 1], Shares(totals, amount)[n - 1]);
    }
  }

  /** The shares of a non-empty order add up to the amount, even where a product wraps. */
  lemma SharesAddUp(totals: seq<int>, amount: int)
    requires amount >= 0 && totals != []
    ensures Sum(Id(), Shares(totals, amount)) == amount
  {
    var r, n := Shares(totals, amount), |totals| - 1;
    assert r == r[..n] + [r[n]];
    SumSnoc(Id(), r[..n], r[n]);
    if amount > 0 && Weight(totals) > 0 {
      SharesPrefix(totals, amount, n);
    } else {
      SumZero(Id(), r[..n]);
    }
  }

  /** Where no product wraps, no share is negative. */
  lemma SharesNonNegative(totals: seq<int>, amount: int)
    requires Bounded(totals, amount) && totals != []
    ensures forall i :: 0 <= i < |totals| ==> Shares(totals, amount)[i] >= 0
  {
    var r, n := Shares(totals, amount), |totals| - 1;
    if amount > 0 && Weight(totals) > 0 {
      AssignedExactly(totals, amount, n);
      forall i: nat | i < n ensures r[i] >= 0 {
        ShareIsFloor(totals, amount, i);
      }
    }
  }

  /** Truncation of a negative quotient rounds towards zero. */
  lemma PartNear(amount: int, total: int, weight: int)
    requires weight > 0
    ensures var p := Wrap64(amount * total); p - weight < Part(amount, total, weight) * weight < p + weight
  {
    var p := Wrap64(amount * total);
    hide Wrap64;
    if p >= 0 {
      Division(p, weight);
    } else {
      Division(-p, weight);
      assert -(-p / weight) * weight == -((-p / weight) * weight);
    }
  }

  lemma WrapDown(x: int)
    requires x >= 0
    ensures x <= MAX_INT64 ==> Wrap64(x) == x
    ensures x > MAX_INT64 ==> Wrap64(x) <= x - 0x1_0000_0000_0000_0000
  {
  }

  /** Exactly when a share is the floor of its exact part: its product fits 64 bits. */
  lemma ShareIsFloorExactly(amount: int, total: int, weight: int)
    requires amount >= 0 && total > 0 && 0 < weight <= MAX_INT64
    ensures Share(amount, total, weight) == (amount * total) / weight <==> amount * total <= MAX_INT64
  {
    var product, part := amount * total, Part(amount, total, weight);
    assert product >= 0;
    WrapDown(product);
    PartNear(amount, total, weight);
    Division(product, weight);
    if product > MAX_INT64 {
      hide Wrap64;
      assert part * weight < (product / weight) * weight;
    }
  }

  /** A product past 64 bits makes a share negative; the last share still closes the sum. */
  lemma WrappedShare()
    ensures Shares([0x2000_0000_0000_0000, 1], 4) == [-3, 7]
  {
    var t := [0x2000_0000_0000_0000, 1];
    assert t[..1] == [0x2000_0000_0000_0000] && t[..1][..0] == [];
    assert Weight(t) == 0x2000_0000_0000_0001 by {
      assert t == [0x2000_0000_0000_0000] + [1] && [0x2000_0000_0000_0000] == [] + [0x2000_0000_0000_0000];
      SumSnoc(Positive(), [0x2000_0000_0000_0000], 1);
      SumSnoc(Positive(), [], 0x2000_0000_0000_0000);
    }
    assert Share(4, t[0], 0x2000_0000_0000_0001) == -3;
    assert Assigned(4, t, 0x2000_0000_0000_0001, 1) == -3;
  }

  // ----- shares against the items' own totals

  /** A share but the last exceeds its item's total exactly when the item's exact part is more than one above it;
      while the refund does not exceed all totals together, none does. */
  lemma ShareWithinTotal(totals: seq<int>, amount: int, i: nat)
    requires Bounded(totals, amount) && amount > 0 && Weight(totals) > 0 && i + 1 < |totals| && totals[i] >= 0
    ensures Shares(totals, amount)[i] <= totals[i] <==> amount * totals[i] < (totals[i] + 1) * Weight(totals)
    ensures amount <= Weight(totals) ==> Shares(totals, amount)[i] <= totals[i]
  {
    var weight, share := Weight(totals), Share(amount, totals[i], Weight(totals));
    ShareIsFloor(totals, amount, i);
    FloorWithin(weight, amount * totals[i], share, totals[i]);
    if amount <= weight { WithinTotal(weight, amount, share, totals[i]); }
  }

  lemma Scaled(w: int, a: int, b: int)
    requires w > 0 && a <= b
    ensures a * w <= b * w
  {
    assert (b - a) * w == b * w - a * w;
    assert (b - a) * w >= 0;
  }

  lemma FloorWithin(weight: int, product: int, share: int, own: int)
    requires weight > 0 && share * weight <= product < (share + 1) * weight
    ensures share <= own <==> product < (own + 1) * weight
  {
    if share <= own { Scaled(weight, share + 1, own + 1); } else { Scaled(weight, own + 1, share); }
  }

  lemma WithinTotal(weight: int, amount: int, share: int, own: int)
    requires 0 < amount <= weight && own >= 0 && share * weight <= amount * own
    ensures share <= own
  {
    assert amount * own <= weight * own;
    Cancel(weight, share, own);
  }

  /** The last share carries everything rounding cut off the others, so it exceeds its own item's total exactly when
      those remainders outweigh what the item itself was left short by. A refund within the totals exceeds the total of
      an item that is not negative by at most n - 2. */
  lemma LastShare(totals: seq<int>, amount: int)
    requires Bounded(totals, amount) && amount > 0 && Weight(totals) > 0 && totals != []
    ensures var n, weight := |totals| - 1, Weight(totals);
            var last, own, cut := Shares(totals, amount)[n], totals[n], CutOff(totals, amount, weight, n);
            && weight * last == amount * Positive()(own) + cut
            && (last > own <==> cut > weight * own - amount * Positive()(own))
            && (amount <= weight && own >= 0 ==> last <= own + (if n >= 1 then n - 1 else 0))
  {
    hide Sum, Share, Wrap64, CutOff, Assigned;
    var n, weight := |totals| - 1, Weight(totals);
    var last, own, cut := Shares(totals, amount)[n], totals[n], CutOff(totals, amount, weight, n);
    AssignedExactly(totals, amount, n);
    assert totals == totals[..n] + [own];
    SumSnoc(Positive(), totals[..n], own);
    assert amount * weight == amount * Weight(totals[..n]) + amount * Positive()(own) by {
      Distribute(amount, Weight(totals[..n]), Positive()(own));
    }
    LastArithmetic(weight, last, amount, own, Positive()(own), Assigned(amount, totals, weight, n), Weight(totals[..n]),
                   cut, n);
  }

  lemma Distribute(a: int, b: int, c: int)
    ensures a * (b + c) == a * b + a * c
  {
  }

  lemma LastArithmetic(weight: int, last: int, amount: int, own: int, carried: int, given: int, rest: int, cut: int,
                       n: nat)
    requires weight > 0 && 0 < amount && carried == (if own > 0 then own else 0) && weight == rest + carried
    requires last == amount - given && weight * given == amount * rest - cut
             && amount * weight == amount * rest + amount * carried
    requires 0 <= cut <= n * (weight - 1)
    ensures weight * last == amount * carried + cut
    ensures last > own <==> cut > weight * own - amount * carried
    ensures amount <= weight && own >= 0 ==> last <= own + (if n >= 1 then n - 1 else 0)
  {
    assert weight * last == weight * amount - weight * given;
    var over, short := last - own, weight * own - amount * carried;
    assert weight * over == cut - short by {
      assert weight * over == weight * last - weight * own;
    }
    Signs(weight, over, cut - short);
    if amount <= weight && own >= 0 {
      assert short == (weight - amount) * own;
      assert short >= 0;
      if n >= 1 {
        OverAtMost(weight, over, n, cut);
      }
    }
  }

  lemma Signs(w: int, x: int, y: int)
    requires w > 0 && w * x == y
    ensures x > 0 <==> y > 0
  {
    if x > 0 { assert w * x >= w; } else { assert w * x <= 0; }
  }

  /** A multiple of the weight below `n` weights is at most `n - 1` weights. */
  lemma OverAtMost(weight: int, over: int, n: nat, cut: int)
    requires weight > 0 && n >= 1 && weight * over <= cut <= n * (weight - 1)
    ensures over <= n - 1
  {
    assert n * (weight - 1) == weight * n - n;
    assert weight * over < weight * n;
    Less(weight, over, n);
  }

  lemma Less(w: int, a: int, b: int)
    requires w > 0 && w * a < w * b
    ensures a < b
  {
    assert w * (b - a) > 0;
    Signs(w, b - a, w * (b - a));
  }

  /** Three items of 10 and a refund of 29: the last share is one more than its item's total. */
  lemma LastShareExceeds()
    ensures Shares([10, 10, 10], 29) == [9, 9, 11]
  {
    var t := [10, 10, 10];
    assert t[..2] == [10, 10] && t[..2][..1] == [10] && t[..1][..0] == [];
    assert Weight(t) == 30 by {
      assert t == [10, 10] + [10] && [10, 10] == [10] + [10] && [10] == [] + [10];
      SumSnoc(Positive(), [10, 10], 10);
      SumSnoc(Positive(), [10], 10);
      SumSnoc(Positive(), [], 10);
    }
    assert Share(29, 10, 30) == 9;
    assert Assigned(29, t, 30, 1) == 9 && Assigned(29, t, 30, 2) == 18;
  }
}
