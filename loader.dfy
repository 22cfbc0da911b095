/**
 * The `Loader` component's hint rotation: the list of hints it shows, and
 * the index into that list that each timer tick advances by one, wrapping
 * around at the end.
 */
module Loader {
  import opened Wrappers

  /** The hints shown when the caller gives none. */
  const DefaultHints: seq<string> := [
    "Scanning top headlines\U{2026}",
    "Gathering insights from trusted sources\U{2026}",
    "Analyzing trending stories and summaries\U{2026}",
    "Picking the most relevant updates for you\U{2026}"
  ]

  /**
   * `hints && hints.length ? hints : defaultHints`: a given, non-empty list is
   * used as it is; a missing (null) or empty one falls back to the defaults.
   * Either way there is something to show.
   */
  function SelectHints(hints: Option<seq<string>>): (items: seq<string>)
    ensures |items| > 0
    ensures hints.Some? && hints.value != [] ==> items == hints.value
    ensures hints.None? || hints.value == [] ==> items == DefaultHints
  {
    if hints.Some? && |hints.value| > 0 then hints.value else DefaultHints
  }

  /** One tick of the timer: `(prev + 1) % items.length`. */
  function NextHint(index: nat, count: nat): (next: nat)
    requires count > 0
    ensures next < count
    ensures index + 1 < count ==> next == index + 1
    ensures index + 1 == count ==> next == 0
  {
    (index + 1) % count
  }

  /** The index after `ticks` ticks of the timer, starting from `index`. */
  function AfterTicks(index: nat, count: nat, ticks: nat): nat
    requires count > 0
  {
    if ticks == 0 then index else NextHint(AfterTicks(index, count, ticks - 1), count)
  }

  /** Stepping the remainder of `n` is the remainder of `n + 1`. */
  lemma ModSucc(n: nat, count: nat)
    requires count > 0
    ensures (n % count + 1) % count == (n + 1) % count
  {
    var q, r := n / count, n % count;
    assert n == q * count + r;
    if r + 1 < count {
      RemainderOf(0, count, r + 1);
      RemainderOf(q, count, r + 1);
    } else {
      RemainderOf(1, count, 0);
      assert (q + 1) * count == q * count + count;
      RemainderOf(q + 1, count, 0);
    }
  }

  /** The remainder of `q * count + r` is `r` when `r` is below `count`. */
  lemma RemainderOf(q: nat, count: nat, r: nat)
    requires 0 <= r < count
    ensures (q * count + r) % count == r
  {
    var n := q * count + r;
    var q', r' := n / count, n % count;
    assert q' * count + r' == q * count + r;
    if q' < q {
      assert (q - q') * count == q * count - q' * count;
      AtLeastOnce(q - q', count);
      assert false;
    } else if q' > q {
      assert (q' - q) * count == q' * count - q * count;
      AtLeastOnce(q' - q, count);
      assert false;
    }
  }

  /** A positive multiple of `count` is at least `count`. */
  lemma {:induction false} AtLeastOnce(k: int, count: nat)
    requires k >= 1
    ensures k * count >= count
  {
    if k > 1 {
      AtLeastOnce(k - 1, count);
      assert k * count == (k - 1) * count + count;
    }
  }

  /** The index after any number of ticks is the start plus the ticks, modulo the list length. */
  lemma {:induction false} AfterTicksIsModular(index: nat, count: nat, ticks: nat)
    requires index < count
    ensures AfterTicks(index, count, ticks) == (index + ticks) % count
  {
    if ticks == 0 {
      RemainderOf(0, count, index);
    } else {
      AfterTicksIsModular(index, count, ticks - 1);
      ModSucc(index + ticks - 1, count);
    }
  }

  /** After as many ticks as there are hints, the same hint shows again. */
  lemma FullCycleReturns(index: nat, count: nat)
    requires index < count
    ensures AfterTicks(index, count, count) == index
  {
    AfterTicksIsModular(index, count, count);
    RemainderOf(1, count, index);
  }

  /** The mounted loader: the hint list it selected and the `hintIndex` state. */
  class HintRotator {
    const items: seq<string>
    var hintIndex: nat

    /** The index always points into the non-empty hint list. */
    predicate Valid()
      reads this
    {
      |items| > 0 && hintIndex < |items|
    }

    /** Mounting: the list is selected from the `hints` prop and the index starts at 0. */
    constructor (hints: Option<seq<string>>)
      ensures Valid()
      ensures items == SelectHints(hints) && hintIndex == 0
    {
      items := SelectHints(hints);
      hintIndex := 0;
    }

    /** One interval callback: the index moves to the next hint, wrapping at the end. */
    method Tick()
      requires Valid()
      modifies this
      ensures Valid()
      ensures hintIndex == NextHint(old(hintIndex), |items|)
    {
      hintIndex := (hintIndex + 1) % |items|;
    }

    /** The hint the loader renders: always one of the selected hints. */
    function DisplayedHint(): (hint: string)
      requires Valid()
      reads this
      ensures hint in items
    {
      items[hintIndex]
    }
  }
}
