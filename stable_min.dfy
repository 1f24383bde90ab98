/**
 * `[...xs].sort((a, b) => key(a) - key(b))[0]`: JavaScript's sort is
 * stable, so the head of the sorted copy is the first element, in the
 * original order, whose key is least.
 */
module StableMin {
  /** The index of the first least key. */
  function FirstMinIndex(keys: seq<real>): (i: nat)
    requires |keys| > 0
    ensures i < |keys|
    ensures forall j :: 0 <= j < |keys| ==> keys[i] <= keys[j]
    ensures forall j :: 0 <= j < i ==> keys[i] < keys[j]
    decreases |keys|
  {
    if |keys| == 1 then 0
    else
      var k := FirstMinIndex(keys[..|keys| - 1]);
      if keys[|keys| - 1] < keys[k] then |keys| - 1 else k
  }
}
