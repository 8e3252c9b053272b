/**
 * multi_counter: for each index, whether it was seen once and whether it was
 * seen more than once, kept as two growable bit vectors of equal size.
 */
module MultiCounting {

  /** bitvec64::bits_per_block */
  const kBitsPerBlock: nat := 64

  function Max(a: nat, b: nat): (m: nat)
  {
    if a < b then b else a
  }

  /** bitvec::resize(n) to a size n no smaller than the current one: the added bits are false. */
  function Resized(bits: seq<bool>, n: nat): (r: seq<bool>)
    requires |bits| <= n
    ensures |r| == n
    ensures forall k :: 0 <= k < |bits| ==> r[k] == bits[k]
    ensures forall k :: |bits| <= k < n ==> !r[k]
  {
    bits + seq(n - |bits|, _ => false)
  }

  /** What increment(i) makes of the two bit vectors. */
  function Incremented(once: seq<bool>, multi: seq<bool>, i: nat): (r: (seq<bool>, seq<bool>))
  {
    var o := Resized(once, Max(|once|, i + 1));
    var m := Resized(multi, Max(|multi|, i + 1));
    if o[i] then
      if !m[i] then (o, m[i := true]) else (o, m)
    else
      (o[i := true], m)
  }

  /** The invariant kept by the counter: equal sizes, and a bit set in multi only where it is set in once. */
  ghost predicate Consistent(once: seq<bool>, multi: seq<bool>)
  {
    |once| == |multi| && forall j :: 0 <= j < |multi| && multi[j] ==> once[j]
  }

  /** How often index j was seen, saturated at two: 0, 1 (once) or 2 (more than once). */
  function Level(once: seq<bool>, multi: seq<bool>, j: nat): (n: nat)
    ensures n <= 2
  {
    if j < |multi| && multi[j] then 2
    else if j < |once| && once[j] then 1
    else 0
  }

  /** After increment(i) the size is at least i + 1, and it never shrinks. */
  lemma IncrementedSize(once: seq<bool>, multi: seq<bool>, i: nat)
    ensures var r := Incremented(once, multi, i);
      |r.0| == Max(|once|, i + 1) && |r.1| == Max(|multi|, i + 1) &&
      |r.0| >= i + 1 && |r.0| >= |once| && |r.1| >= |multi|
  {
  }

  /** The first increment of i sets its once bit and leaves its multi bit clear. */
  lemma IncrementedFirst(once: seq<bool>, multi: seq<bool>, i: nat)
    requires Consistent(once, multi)
    requires i >= |once| || !once[i]
    ensures var r := Incremented(once, multi, i);
      r.0[i] && !r.1[i]
  {
  }

  /** An increment of an index already seen once sets its multi bit. */
  lemma IncrementedAgain(once: seq<bool>, multi: seq<bool>, i: nat)
    requires i < |once| && once[i]
    ensures var r := Incremented(once, multi, i);
      r.0[i] && r.1[i]
  {
  }

  /** Once i is seen more than once, further increments of i change nothing. */
  lemma IncrementedSaturates(once: seq<bool>, multi: seq<bool>, i: nat)
    requires i < |once| && i < |multi| && once[i] && multi[i]
    ensures Incremented(once, multi, i) == (once, multi)
  {
    assert Resized(once, |once|) == once;
    assert Resized(multi, |multi|) == multi;
  }

  /** increment(i) changes no bit other than i's; bits added by the resize read as false. */
  lemma IncrementedFrame(once: seq<bool>, multi: seq<bool>, i: nat)
    ensures var r := Incremented(once, multi, i);
      && (forall j :: 0 <= j < |once| && j != i ==> r.0[j] == once[j])
      && (forall j :: 0 <= j < |multi| && j != i ==> r.1[j] == multi[j])
      && (forall j :: |once| <= j < |r.0| && j != i ==> !r.0[j])
      && (forall j :: |multi| <= j < |r.1| && j != i ==> !r.1[j])
  {
  }

  /** increment keeps the counter consistent. */
  lemma IncrementedConsistent(once: seq<bool>, multi: seq<bool>, i: nat)
    requires Consistent(once, multi)
    ensures var r := Incremented(once, multi, i);
      Consistent(r.0, r.1)
  {
    var r := Incremented(once, multi, i);
    IncrementedFrame(once, multi, i);
    forall j | 0 <= j < |r.1| && r.1[j] ensures r.0[j] {
      if j != i && j < |multi| {
        assert multi[j];
      }
    }
  }

  /** On a consistent counter, increment(i) is a saturating +1 on i's level and leaves every other level alone. */
  lemma IncrementedLevel(once: seq<bool>, multi: seq<bool>, i: nat, j: nat)
    requires Consistent(once, multi)
    ensures var r := Incremented(once, multi, i);
      Level(r.0, r.1, j) == if j != i then Level(once, multi, j)
                            else if Level(once, multi, j) < 2 then Level(once, multi, j) + 1
                            else 2
  {
    IncrementedFrame(once, multi, i);
  }

  class MultiCounter {
    var once: seq<bool>
    var multi: seq<bool>
    /** Blocks reserved in each vector's storage. */
    var onceBlocks: nat
    var multiBlocks: nat

    ghost predicate Valid()
      reads this
    {
      Consistent(once, multi)
    }

    constructor()
      ensures once == [] && multi == [] && onceBlocks == 0 && multiBlocks == 0
      ensures Valid()
    {
      once := [];
      multi := [];
      onceBlocks := 0;
      multiBlocks := 0;
    }

    function IsMulti(i: nat): (b: bool)
      reads this
      requires i < |multi|
    {
      multi[i]
    }

    function Size(): (n: nat)
      reads this
    {
      |once|
    }

    method Increment(i: nat)
      modifies this`once, this`multi
      ensures (once, multi) == Incremented(old(once), old(multi), i)
      ensures old(Valid()) ==> Valid()
      ensures Size() >= i + 1 && Size() >= old(Size())
    {
      if Valid() {
        IncrementedConsistent(once, multi, i);
      }
      IncrementedSize(once, multi, i);
      once := Resized(once, Max(|once|, i + 1));
      multi := Resized(multi, Max(|multi|, i + 1));
      if once[i] {
        if !multi[i] {
          multi := multi[i := true];
        }
      } else {
        once := once[i := true];
      }
    }

    method Reserve(size: nat)
      modifies this`onceBlocks, this`multiBlocks
      ensures onceBlocks == Max(old(onceBlocks), size / kBitsPerBlock)
      ensures multiBlocks == Max(old(multiBlocks), size / kBitsPerBlock)
      ensures once == old(once) && multi == old(multi) && Size() == old(Size())
    {
      onceBlocks := Max(onceBlocks, size / kBitsPerBlock);
      multiBlocks := Max(multiBlocks, size / kBitsPerBlock);
    }
  }
}
