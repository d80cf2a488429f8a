/**
 * RangePartitioner.partition: split a row count into gridSize contiguous ranges of
 * positions [minValue, maxValue], one execution context per partition. The row count
 * (SELECT COUNT(*) FROM employees) is an input of the model.
 */
module RangePartitioner {
  import opened JavaLang

  /** The entries the partitioner puts into each partition's ExecutionContext. */
  datatype PartitionContext = PartitionContext(minValue: int, maxValue: int, partitionNumber: int, name: string)

  /** The map key and context name of partition i: "partition" + i. */
  function PartitionName(i: nat): string
  {
    "partition" + NatToString(i)
  }

  lemma PartitionNameInjective(i: nat, j: nat)
    ensures PartitionName(i) == PartitionName(j) ==> i == j
  {
    if PartitionName(i) == PartitionName(j) {
      assert NatToString(i) == PartitionName(i)[9..];
      assert NatToString(j) == PartitionName(j)[9..];
      NatToStringInjective(i, j);
    }
  }

  /** (totalCount + gridSize - 1) / gridSize, the rows per partition. */
  function PartitionSize(total: nat, gridSize: int): (r: int)
    requires gridSize > 0
    ensures r >= 0
    ensures total > 0 ==> r >= 1
  {
    (total + gridSize - 1) / gridSize
  }

  /** The context the loop builds for partition i. */
  function ContextFor(i: nat, size: int, total: nat): (r: PartitionContext)
    // Math.min: the range ends at the partition's last slot, but never after the last row
    ensures r.maxValue <= total - 1 && r.maxValue <= (i + 1) * size - 1
    ensures r.maxValue == total - 1 || r.maxValue == (i + 1) * size - 1
    ensures r.minValue == i * size && r.partitionNumber == i && r.name == PartitionName(i)
  {
    var hi := (i + 1) * size - 1;
    PartitionContext(i * size, if hi < total - 1 then hi else total - 1, i, PartitionName(i))
  }

  predicate InRange(c: PartitionContext, v: int)
  {
    c.minValue <= v <= c.maxValue
  }

  predicate IsEmpty(c: PartitionContext)
  {
    c.minValue > c.maxValue
  }

  const ArithmeticException := Throwable("java.lang.ArithmeticException", Some("/ by zero"))

  /** m holds exactly the contexts of partitions 0 .. n - 1, keyed by their names. */
  predicate Layout(m: map<string, PartitionContext>, n: nat, size: int, total: nat)
  {
    m.Keys == (set j | 0 <= j < n :: PartitionName(j)) &&
    forall j: nat :: j < n ==> PartitionName(j) in m && m[PartitionName(j)] == ContextFor(j, size, total)
  }

  /** Adding partition n to a layout of n partitions gives a layout of n + 1; the new key is fresh. */
  lemma LayoutStep(m: map<string, PartitionContext>, n: nat, size: int, total: nat)
    requires Layout(m, n, size, total)
    ensures PartitionName(n) !in m
    ensures Layout(m[PartitionName(n) := ContextFor(n, size, total)], n + 1, size, total)
  {
    var key := PartitionName(n);
    var m' := m[key := ContextFor(n, size, total)];
    NameFresh(n);
    assert key !in m;
    assert m'.Keys == (set j | 0 <= j < n + 1 :: PartitionName(j)) by {
      assert (set j | 0 <= j < n + 1 :: PartitionName(j)) == (set j | 0 <= j < n :: PartitionName(j)) + {key};
    }
    assert forall j: nat :: j < n + 1 ==> PartitionName(j) in m' && m'[PartitionName(j)] == ContextFor(j, size, total) by {
      forall j: nat | j < n + 1
        ensures PartitionName(j) in m' && m'[PartitionName(j)] == ContextFor(j, size, total)
      {
        if j < n {
          assert PartitionName(j) != key;
        }
      }
    }
  }

  lemma MapAddSize<K, V>(m: map<K, V>, k: K, v: V)
    requires k !in m
    ensures |m[k := v]| == |m| + 1
  {
  }

  lemma NameFresh(n: nat)
    ensures forall j: nat :: j < n ==> PartitionName(j) != PartitionName(n)
  {
    forall j: nat | j < n ensures PartitionName(j) != PartitionName(n) {
      PartitionNameInjective(n, j);
    }
  }

  /**
   * partition(gridSize) with the row count given. No count or a count of 0 gives the
   * empty map; a positive count with gridSize 0 divides by zero; a negative gridSize
   * runs the loop zero times; otherwise there are exactly gridSize contexts, partition i
   * under the key "partition" + i.
   */
  method Partition(totalCount: Option<nat>, gridSize: int) returns (r: Result<map<string, PartitionContext>>)
    ensures totalCount.None? || totalCount.value == 0 ==> r == Ok(map[])
    ensures totalCount.Some? && totalCount.value > 0 && gridSize == 0 ==> r == Err(ArithmeticException)
    ensures totalCount.Some? && totalCount.value > 0 && gridSize < 0 ==> r == Ok(map[])
    ensures totalCount.Some? && totalCount.value > 0 && gridSize > 0 ==>
      r.Ok? && |r.value| == gridSize &&
      Layout(r.value, gridSize, PartitionSize(totalCount.value, gridSize), totalCount.value)
  {
    if totalCount.None? || totalCount.value == 0 {
      return Ok(map[]);
    }
    var total := totalCount.value;
    if gridSize == 0 {
      return Err(ArithmeticException);
    }
    if gridSize < 0 {
      // The size is computed, but the loop runs zero times.
      return Ok(map[]);
    }
    var size := (total + gridSize - 1) / gridSize;
    var partitions: map<string, PartitionContext> := map[];
    var i := 0;
    while i < gridSize
      invariant 0 <= i <= gridSize
      invariant Layout(partitions, i, size, total) && |partitions| == i
    {
      LayoutStep(partitions, i, size, total);
      MapAddSize(partitions, PartitionName(i), ContextFor(i, size, total));
      partitions := partitions[PartitionName(i) := ContextFor(i, size, total)];
      i := i + 1;
    }
    r := Ok(partitions);
  }

  // ---------------------------------------------------------------------------
  // Properties of the ranges

  /** The partition size is the ceiling of total / gridSize, and positive when there are rows. */
  lemma PartitionSizeIsCeiling(total: nat, gridSize: int)
    requires gridSize > 0 && total > 0
    ensures PartitionSize(total, gridSize) >= 1
    ensures PartitionSize(total, gridSize) * gridSize >= total
    ensures (PartitionSize(total, gridSize) - 1) * gridSize < total
  {
    var ps := PartitionSize(total, gridSize);
    var rem := (total + gridSize - 1) % gridSize;
    assert total + gridSize - 1 == ps * gridSize + rem;
    assert (ps - 1) * gridSize == ps * gridSize - gridSize;
  }

  /** Each partition lies inside [0, total - 1] and holds at most size positions. */
  lemma ContextBounds(total: nat, gridSize: int, i: nat)
    requires gridSize > 0 && total > 0 && i < gridSize
    ensures var c := ContextFor(i, PartitionSize(total, gridSize), total);
      c.minValue >= 0 && c.maxValue <= total - 1 &&
      c.maxValue - c.minValue + 1 <= PartitionSize(total, gridSize) &&
      c.partitionNumber == i && c.name == PartitionName(i)
  {
    PartitionSizeIsCeiling(total, gridSize);
    var ps := PartitionSize(total, gridSize);
    assert (i + 1) * ps - 1 - i * ps + 1 == ps;
  }

  /** A later partition starts after an earlier one ends: the ranges are ascending and disjoint. */
  lemma ContextsAscending(total: nat, gridSize: int, i: nat, j: nat)
    requires gridSize > 0 && total > 0 && i < j < gridSize
    ensures ContextFor(i, PartitionSize(total, gridSize), total).maxValue
          < ContextFor(j, PartitionSize(total, gridSize), total).minValue
  {
    PartitionSizeIsCeiling(total, gridSize);
    var ps := PartitionSize(total, gridSize);
    assert (i + 1) * ps <= j * ps by {
      MulMonotone(i + 1, j, ps);
    }
  }

  lemma MulMonotone(a: nat, b: nat, c: nat)
    requires a <= b
    ensures a * c <= b * c
  {
  }

  /** No position belongs to two partitions. */
  lemma ContextsDisjoint(total: nat, gridSize: int, i: nat, j: nat, v: int)
    requires gridSize > 0 && total > 0 && i < gridSize && j < gridSize && i != j
    ensures !(InRange(ContextFor(i, PartitionSize(total, gridSize), total), v) &&
              InRange(ContextFor(j, PartitionSize(total, gridSize), total), v))
  {
    if i < j {
      ContextsAscending(total, gridSize, i, j);
    } else {
      ContextsAscending(total, gridSize, j, i);
    }
  }

  /** The partitions together cover exactly the positions 0 .. total - 1. */
  lemma ContextsCover(total: nat, gridSize: int, v: int)
    requires gridSize > 0 && total > 0
    ensures (0 <= v < total) <==>
      exists i: nat :: i < gridSize && InRange(ContextFor(i, PartitionSize(total, gridSize), total), v)
  {
    PartitionSizeIsCeiling(total, gridSize);
    var ps := PartitionSize(total, gridSize);
    if 0 <= v < total {
      var i: nat := v / ps;
      assert i * ps <= v < (i + 1) * ps;
      if i >= gridSize {
        MulMonotone(gridSize, i, ps);
        assert false;
      }
      assert InRange(ContextFor(i, ps, total), v);
    }
    forall i: nat | i < gridSize && InRange(ContextFor(i, ps, total), v)
      ensures 0 <= v < total
    {
      ContextBounds(total, gridSize, i);
    }
  }

  /** A partition is empty exactly when it starts at or after the last row. */
  lemma EmptyIffPastEnd(total: nat, gridSize: int, i: nat)
    requires gridSize > 0 && total > 0 && i < gridSize
    ensures IsEmpty(ContextFor(i, PartitionSize(total, gridSize), total)) <==>
      i * PartitionSize(total, gridSize) >= total
  {
    PartitionSizeIsCeiling(total, gridSize);
    var ps := PartitionSize(total, gridSize);
    assert i * ps <= (i + 1) * ps - 1;
  }

  /** Empty partitions are present, not dropped, and come only after every non-empty one. */
  lemma EmptyPartitionsTrail(total: nat, gridSize: int, i: nat, j: nat)
    requires gridSize > 0 && total > 0 && i <= j < gridSize
    requires IsEmpty(ContextFor(i, PartitionSize(total, gridSize), total))
    ensures IsEmpty(ContextFor(j, PartitionSize(total, gridSize), total))
  {
    var ps := PartitionSize(total, gridSize);
    EmptyIffPastEnd(total, gridSize, i);
    EmptyIffPastEnd(total, gridSize, j);
    PartitionSizeIsCeiling(total, gridSize);
    MulMonotone(i, j, ps);
  }

  /** 23 rows over a grid of 5: [0-4], [5-9], [10-14], [15-19], [20-22]. */
  lemma TwentyThreeOverFive()
    ensures PartitionSize(23, 5) == 5
    ensures ContextFor(0, 5, 23).minValue == 0 && ContextFor(0, 5, 23).maxValue == 4
    ensures ContextFor(1, 5, 23).minValue == 5 && ContextFor(1, 5, 23).maxValue == 9
    ensures ContextFor(2, 5, 23).minValue == 10 && ContextFor(2, 5, 23).maxValue == 14
    ensures ContextFor(3, 5, 23).minValue == 15 && ContextFor(3, 5, 23).maxValue == 19
    ensures ContextFor(4, 5, 23).minValue == 20 && ContextFor(4, 5, 23).maxValue == 22
  {
  }

  /** 3 rows over a grid of 5: size 1, and partitions 3 and 4 are empty. */
  lemma ThreeOverFive()
    ensures PartitionSize(3, 5) == 1
    ensures !IsEmpty(ContextFor(2, 1, 3)) && ContextFor(2, 1, 3).maxValue == 2
    ensures IsEmpty(ContextFor(3, 1, 3)) && IsEmpty(ContextFor(4, 1, 3))
  {
  }
}
