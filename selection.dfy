/** Random source selection by rejection sampling. Each `Math.floor(Math.random()
    * length)` of the component is one entry of a caller-supplied sequence
    `draws`; the sampling loops consume draws until one is accepted. The real
    loops end only with probability 1, so their callers here must supply a
    sequence in which an acceptable draw occurs. */
module SourceSelection {
  import opened VideoPool

  /** Every draw is an index into pool, as a scaled and floored random number is. */
  predicate Drawable(pool: seq<string>, draws: seq<nat>)
  {
    forall k :: 0 <= k < |draws| ==> draws[k] < |pool|
  }

  /** Draw d names a pool entry that equals neither current source. */
  predicate Fresh(pool: seq<string>, d: nat, current1: string, current2: string)
  {
    d < |pool| && pool[d] != current1 && pool[d] != current2
  }

  /** Some draw is accepted by the replacement loop. */
  predicate EventuallyFresh(pool: seq<string>, draws: seq<nat>, current1: string, current2: string)
  {
    exists k :: 0 <= k < |draws| && Fresh(pool, draws[k], current1, current2)
  }

  /** The position of the first accepted draw: the draw on which the
      replacement loop stops. */
  function FirstFresh(pool: seq<string>, draws: seq<nat>, current1: string, current2: string): (k: nat)
    requires EventuallyFresh(pool, draws, current1, current2)
    ensures k < |draws| && Fresh(pool, draws[k], current1, current2)
    ensures forall j :: 0 <= j < k ==> !Fresh(pool, draws[j], current1, current2)
    decreases |draws|
  {
    var w :| 0 <= w < |draws| && Fresh(pool, draws[w], current1, current2);
    if Fresh(pool, draws[0], current1, current2) then 0
    else
      assert draws[1..][w - 1] == draws[w];
      1 + FirstFresh(pool, draws[1..], current1, current2)
  }

  /** scheduleNextVideo's loop: draw until the entry differs from both slots'
      current sources. Returns the accepted source and the position of the
      draw that produced it. */
  method PickReplacement(pool: seq<string>, current1: string, current2: string, draws: seq<nat>)
    returns (newSrc: string, used: nat)
    requires Drawable(pool, draws)
    requires EventuallyFresh(pool, draws, current1, current2)
    ensures used < |draws| && newSrc == pool[draws[used]]
    ensures newSrc != current1 && newSrc != current2
    ensures forall j :: 0 <= j < used ==> pool[draws[j]] == current1 || pool[draws[j]] == current2
    ensures used == FirstFresh(pool, draws, current1, current2)
  {
    ghost var w :| 0 <= w < |draws| && Fresh(pool, draws[w], current1, current2);
    used := 0;
    newSrc := pool[draws[used]];
    while newSrc == current1 || newSrc == current2
      invariant used <= w
      invariant newSrc == pool[draws[used]]
      invariant forall j :: 0 <= j < used ==> pool[draws[j]] == current1 || pool[draws[j]] == current2
      decreases w - used
    {
      used := used + 1;
      newSrc := pool[draws[used]];
    }
    ghost var first := FirstFresh(pool, draws, current1, current2);
    assert !(first < used) && !(used < first);
  }

  /** The initial choice: the first index is one draw; the second is drawn
      until its index differs from the first. */
  method PickInitialSources(pool: seq<string>, firstIndex: nat, draws: seq<nat>)
    returns (player1: string, player2: string, used: nat)
    requires firstIndex < |pool| && Drawable(pool, draws)
    requires exists k :: 0 <= k < |draws| && draws[k] != firstIndex
    ensures used < |draws| && draws[used] != firstIndex
    ensures forall j :: 0 <= j < used ==> draws[j] == firstIndex
    ensures player1 == pool[firstIndex] && player2 == pool[draws[used]]
    ensures Distinct(pool) ==> player1 != player2
  {
    ghost var w :| 0 <= w < |draws| && draws[w] != firstIndex;
    used := 0;
    var secondIndex := draws[used];
    while secondIndex == firstIndex
      invariant used <= w
      invariant secondIndex == draws[used]
      invariant forall j :: 0 <= j < used ==> draws[j] == firstIndex
      decreases w - used
    {
      used := used + 1;
      secondIndex := draws[used];
    }
    player1, player2 := pool[firstIndex], pool[secondIndex];
  }

  /** In a pool of at least three distinct clips, the three draws 0, 1, 2
      always contain an accepted one, whatever the two current sources are. */
  lemma ThreeDrawsSuffice(pool: seq<string>, current1: string, current2: string)
    requires Distinct(pool) && |pool| >= 3
    ensures Drawable(pool, [0, 1, 2])
    ensures EventuallyFresh(pool, [0, 1, 2], current1, current2)
  {
    var draws: seq<nat> := [0, 1, 2];
    if !Fresh(pool, 0, current1, current2) && !Fresh(pool, 1, current1, current2) {
      assert pool[2] != pool[0] && pool[2] != pool[1];
      assert Fresh(pool, draws[2], current1, current2);
    } else if Fresh(pool, 0, current1, current2) {
      assert Fresh(pool, draws[0], current1, current2);
    } else {
      assert Fresh(pool, draws[1], current1, current2);
    }
  }
}
