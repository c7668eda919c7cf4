/** Tab slicing of the bank (`getBankItems`): tab 0 is the whole bank; tab k > 0
    is the run of `counts[k - 1]` slots that follows the slots of tabs 1 .. k - 1.
    The per-tab counts stand for the `BANK_TAB_*_COUNT` varbits, in order. */
module Tabs {
  import opened Wrappers

  /** Why slicing fails: the tab has no count (`TAB_VARBITS.get` out of range),
      the count is negative or the start lies outside the array
      (`Arrays.copyOfRange` throws), or the run reaches past the end of the
      array (where `copyOfRange` pads with nulls that the change check then
      dereferences). */
  datatype TabError = NoSuchTab | NegativeCount | StartOutOfRange | PastEnd

  function Sum(xs: seq<int>): int
  {
    if |xs| == 0 then 0 else Sum(xs[..|xs| - 1]) + xs[|xs| - 1]
  }

  /** Index of the first slot of tab `tab` (1-based). */
  function TabStart(counts: seq<int>, tab: int): int
    requires 1 <= tab <= |counts|
  {
    Sum(counts[..tab - 1])
  }

  /** The slots the bank view shows for `currentTab`. */
  function SliceTab<T>(items: seq<T>, counts: seq<int>, currentTab: int): (r: Result<seq<T>, TabError>)
    ensures currentTab <= 0 ==> r == Success(items)
    ensures currentTab > |counts| ==> r == Failure(NoSuchTab)
    ensures 0 < currentTab <= |counts| ==>
              var start, count := TabStart(counts, currentTab), counts[currentTab - 1];
              && (r.Success? <==> 0 <= start && 0 <= count && start + count <= |items|)
              && (r.Success? ==> |r.value| == count
                                 && forall j :: 0 <= j < count ==> r.value[j] == items[start + j])
  {
    if currentTab <= 0 then Success(items)
    else if currentTab > |counts| then Failure(NoSuchTab)
    else
      var start, count := TabStart(counts, currentTab), counts[currentTab - 1];
      if count < 0 then Failure(NegativeCount)
      else if start < 0 || start > |items| then Failure(StartOutOfRange)
      else if start + count > |items| then Failure(PastEnd)
      else Success(items[start..start + count])
  }

  lemma {:induction false} SumPrepend(x: int, xs: seq<int>)
    ensures Sum([x] + xs) == x + Sum(xs)
    decreases |xs|
  {
    if |xs| > 0 {
      assert ([x] + xs)[..|xs|] == [x] + xs[..|xs| - 1];
      SumPrepend(x, xs[..|xs| - 1]);
    }
  }

  /** With non-negative counts, tab starts never move backwards. */
  lemma {:induction false} SumPrefixMonotone(counts: seq<int>, i: int, j: int)
    requires forall k :: 0 <= k < |counts| ==> counts[k] >= 0
    requires 0 <= i <= j <= |counts|
    ensures 0 <= Sum(counts[..i]) <= Sum(counts[..j])
    decreases j
  {
    if j > 0 {
      assert counts[..j][..j - 1] == counts[..j - 1];
      if i < j {
        SumPrefixMonotone(counts, i, j - 1);
      } else {
        SumPrefixMonotone(counts, i - 1, j - 1);
      }
    }
  }

  /** `getBankItems` for a bank container that may be absent (`null`). */
  method GetBankItems<T>(bank: Option<seq<T>>, counts: seq<int>, currentTab: int)
    returns (r: Result<Option<seq<T>>, TabError>)
    ensures bank.None? ==> r == Success(None)
    ensures bank.Some? ==>
              var sliced := SliceTab(bank.value, counts, currentTab);
              && (r.Success? <==> sliced.Success?)
              && (r.Success? ==> r.value == Some(sliced.value))
              && (r.Failure? ==> r.error == sliced.error)
  {
    if bank.None? {
      return Success(None);
    }
    var items := bank.value;
    if currentTab > 0 {
      if currentTab > |counts| {
        return Failure(NoSuchTab);
      }
      var startIndex := 0;
      var i := currentTab - 1;
      while i > 0
        invariant 0 <= i <= currentTab - 1
        invariant startIndex == Sum(counts[i..currentTab - 1])
      {
        assert counts[i - 1..currentTab - 1] == [counts[i - 1]] + counts[i..currentTab - 1];
        SumPrepend(counts[i - 1], counts[i..currentTab - 1]);
        startIndex := startIndex + counts[i - 1];
        i := i - 1;
      }
      assert counts[0..currentTab - 1] == counts[..currentTab - 1];
      var itemCount := counts[currentTab - 1];
      if itemCount < 0 {
        return Failure(NegativeCount);
      }
      if startIndex < 0 || startIndex > |items| {
        return Failure(StartOutOfRange);
      }
      if startIndex + itemCount > |items| {
        return Failure(PastEnd);
      }
      items := items[startIndex..startIndex + itemCount];
    }
    return Success(Some(items));
  }

  /** When the counts are non-negative and fit in the bank, every tab slices
      successfully, and tab k is exactly the slots from the end of tab k - 1 to
      the start of tab k + 1: the tabs lie side by side from slot 0 on. */
  lemma TabsTile<T>(items: seq<T>, counts: seq<int>, k: int)
    requires forall c :: 0 <= c < |counts| ==> counts[c] >= 0
    requires Sum(counts) <= |items|
    requires 1 <= k <= |counts|
    ensures 0 <= Sum(counts[..k - 1]) <= Sum(counts[..k]) <= |items|
    ensures SliceTab(items, counts, k) == Success(items[Sum(counts[..k - 1])..Sum(counts[..k])])
  {
    SumPrefixMonotone(counts, k - 1, k);
    SumPrefixMonotone(counts, k, |counts|);
    assert counts[..|counts|] == counts;
    var start, end := Sum(counts[..k - 1]), Sum(counts[..k]);
    assert end == start + counts[k - 1] by {
      assert counts[..k][..k - 1] == counts[..k - 1];
    }
    assert TabStart(counts, k) == start;
    assert 0 <= start <= end <= |items|;
  }

  /** Tab 2 of a bank whose first three tabs hold 3, 2 and 5 slots is slots 3 and 4. */
  lemma SecondTabExample<T>(items: seq<T>)
    requires |items| >= 10
    ensures SliceTab(items, [3, 2, 5], 2) == Success(items[3..5])
  {
  }
}
