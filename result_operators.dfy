/**
 * The Take result operator: it keeps the first Count items of a query's result,
 * with the semantics of `Enumerable.Take` when executed in memory.
 */
module ResultOperators {
  import opened Wrappers
  import opened Utilities
  import Decimal
  import Clauses

  /** Whether an operator's in-memory execution still yields a sequence or a single value. */
  datatype ExecutionStrategy = CollectionExecutionStrategy

  /** max(0, min(count, length)): how many items Take(count) keeps out of `length`. */
  function Clamp(count: int, length: nat): nat {
    if count <= 0 then 0 else if count < length then count else length
  }

  /**
   * `Enumerable.Take`: yields items from the front while fewer than `count` have been
   * yielded, so a count of zero or below yields nothing.
   */
  function Take<T>(items: seq<T>, count: int): seq<T>
    decreases |items|
  {
    if count <= 0 || items == [] then [] else [items[0]] + Take(items[1..], count - 1)
  }

  /** Take keeps exactly the first max(0, min(count, |items|)) items. */
  lemma {:induction false} TakeIsClampedPrefix<T>(items: seq<T>, count: int)
    ensures Take(items, count) == items[..Clamp(count, |items|)]
    decreases |items|
  {
    if count > 0 && items != [] {
      TakeIsClampedPrefix(items[1..], count - 1);
      assert items[..Clamp(count, |items|)] == [items[0]] + items[1..][..Clamp(count - 1, |items| - 1)];
    }
  }

  /** The length of the result is max(0, min(count, |items|)) and it is a prefix of `items`. */
  lemma {:induction false} TakeLengthAndPrefix<T>(items: seq<T>, count: int)
    ensures |Take(items, count)| == Clamp(count, |items|)
    ensures Take(items, count) == items[..|Take(items, count)|]
  {
    TakeIsClampedPrefix(items, count);
  }

  /** Within range, Take(count) is exactly the first `count` items. */
  lemma {:induction false} TakeWithinBounds<T>(items: seq<T>, count: int)
    requires 0 <= count <= |items|
    ensures Take(items, count) == items[..count]
  {
    TakeIsClampedPrefix(items, count);
  }

  /** A count at or beyond the length keeps everything. */
  lemma {:induction false} TakeBeyondLength<T>(items: seq<T>, count: int)
    requires count >= |items|
    ensures Take(items, count) == items
  {
    TakeIsClampedPrefix(items, count);
  }

  /** A count of zero or below keeps nothing, and is no error. */
  lemma TakeNonPositive<T>(items: seq<T>, count: int)
    requires count <= 0
    ensures Take(items, count) == []
  {
  }

  /** Two Take operators in a pipeline act as one Take of the smaller count. */
  lemma {:induction false} TakeOfTake<T>(items: seq<T>, first: int, second: int)
    ensures Take(Take(items, first), second) == Take(items, if first < second then first else second)
  {
    TakeIsClampedPrefix(items, first);
    TakeIsClampedPrefix(Take(items, first), second);
    TakeIsClampedPrefix(items, if first < second then first else second);
  }

  /** The result operator `Take(Count)`; Count can be changed after construction. */
  class TakeResultOperator {
    var Count: Int32
    const Strategy: ExecutionStrategy := CollectionExecutionStrategy

    constructor (count: Int32)
      ensures Count == count && Strategy == CollectionExecutionStrategy
    {
      Count := count;
    }

    /** The public setter of Count; the strategy is fixed at construction. */
    method SetCount(value: Int32)
      modifies this`Count
      ensures Count == value
    {
      Count := value;
    }

    /** A new operator with the current Count; the clone context is not used. */
    method Clone(cloneContext: Clauses.CloneContext?) returns (r: TakeResultOperator)
      ensures fresh(r) && r.Count == Count && r.Strategy == Strategy
    {
      r := new TakeResultOperator(Count);
    }

    /** `items.Take(Count)` on a materialised sequence; `null` items are an argument error. */
    function ExecuteInMemory<T>(items: Option<seq<T>>): (r: Result<seq<T>, ArgumentError>)
      reads this
      ensures items.None? <==> r == Failure(ArgumentNull("items"))
      ensures items.Some? ==>
                r.Success? &&
                |r.value| == Clamp(Count as int, |items.value|) &&
                r.value == items.value[..|r.value|]
    {
      match items
      case None => Failure(ArgumentNull("items"))
      case Some(s) =>
        TakeLengthAndPrefix(s, Count as int);
        Success(Take(s, Count as int))
    }

    /** "Take(<count>)", from which the current Count can be read back. */
    function ToString(): (s: string)
      reads this
      ensures s == "Take(" + Decimal.FromInt(Count as int) + ")"
      ensures |s| > 6 && s[..5] == "Take(" && s[|s| - 1] == ')'
      ensures Decimal.Parse(s[5..|s| - 1]) == Some(Count as int)
    {
      var digits := Decimal.FromInt(Count as int);
      Decimal.FromIntRoundTrip(Count as int);
      Decimal.NatToStringIsDigits(if Count < 0 then -(Count as int) else Count as int);
      var s := "Take(" + digits + ")";
      assert s[5..|s| - 1] == digits;
      s
    }
  }

  /** Two Take operators render alike exactly when their counts are equal. */
  lemma ToStringDistinguishesCounts(a: TakeResultOperator, b: TakeResultOperator)
    ensures a.ToString() == b.ToString() <==> a.Count == b.Count
  {
    var sa, sb := a.ToString(), b.ToString();
    if sa == sb {
      assert sa[5..|sa| - 1] == sb[5..|sb| - 1];
    }
  }

  /** The example of a Take(3) over five items, and the same operator after its Count is set to 0. */
  method TakeExample() {
    var op := new TakeResultOperator(3);
    var items := [10, 20, 30, 40, 50];
    assert items[..3] == [10, 20, 30];
    assert op.ExecuteInMemory(Some(items)) == Success([10, 20, 30]);
    op.SetCount(0);
    assert op.ExecuteInMemory(Some(items)) == Success([]);
    op.SetCount(7);
    assert items[..5] == items;
    assert op.ExecuteInMemory(Some(items)) == Success(items);
    var copy := op.Clone(null);
    op.SetCount(1);
    assert copy.Count == 7;
  }
}
