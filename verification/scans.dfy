/** The two index scans the transcript code performs: `findIndex` from the
    front, and a `for` loop from the back that stops at the first hit. They
    work on one flag per item, computed by the caller. */
module Scans {
  import opened Values

  /** `findIndex`: the first set flag, or -1 when none is set. */
  function FirstIndex(fs: seq<bool>): (r: int)
    ensures -1 <= r < |fs|
    ensures r == -1 <==> forall i :: 0 <= i < |fs| ==> !fs[i]
    ensures r >= 0 ==> fs[r] && forall i :: 0 <= i < r ==> !fs[i]
    decreases |fs|
  {
    if |fs| == 0 then -1
    else if fs[0] then 0
    else
      var k := FirstIndex(fs[1..]);
      assert forall i :: 1 <= i < |fs| ==> fs[i] == fs[1..][i - 1];
      if k == -1 then -1 else k + 1
  }

  /** The backward loop `for (i = n - 1; i >= 0; i--)` that breaks at the
      first set flag whose index passes the guard `after === -1 || i > after`. */
  function LastIndexAfter(fs: seq<bool>, after: int): (r: Option<nat>)
    ensures r.Some? ==> r.value < |fs| && fs[r.value] && (after == -1 || r.value > after)
    ensures r.Some? ==> forall i :: r.value < i < |fs| ==> !fs[i]
    ensures r.None? ==> forall i :: 0 <= i < |fs| && (after == -1 || i > after) ==> !fs[i]
    decreases |fs|
  {
    if |fs| == 0 then None
    else
      var last := |fs| - 1;
      if fs[last] && (after == -1 || last > after) then Some(last)
      else
        var r := LastIndexAfter(fs[..last], after);
        assert forall i :: 0 <= i < last ==> fs[i] == fs[..last][i];
        r
  }

  /** Restricting the backward scan to indices after `after` and falling
      back to the unrestricted scan gives the unrestricted scan: the last
      set flag either passes the guard or nothing does. */
  lemma LastIndexIgnoresBound(fs: seq<bool>, after: int)
    ensures (match LastIndexAfter(fs, after)
             case Some(i) => Some(i)
             case None => LastIndexAfter(fs, -1)) == LastIndexAfter(fs, -1)
  {
    var all := LastIndexAfter(fs, -1);
    match LastIndexAfter(fs, after)
    case None =>
    case Some(i) =>
      assert all.Some?;
      assert !(all.value > i);
      assert !(all.value < i);
  }
}
