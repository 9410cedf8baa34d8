/** MaskPickup: a player's pickup action. The physics overlap query is an input (hits, in
    query order, each the Mask component on the hit collider or null); the chosen mask's
    destruction is reported to the caller, which delivers it to the spawner's watcher. */
module Pickup {
  import opened Wrappers
  import opened GameTypes
  import opened Masks
  import opened Player

  /** Index of the first hit that carries a Mask, or |hits| when none does. */
  function FirstMaskIndex(hits: seq<Mask?>): (k: nat)
    ensures k <= |hits|
    ensures forall j :: 0 <= j < k ==> hits[j] == null
    ensures k < |hits| ==> hits[k] != null
    decreases |hits|
  {
    if hits == [] then 0
    else if hits[0] != null then 0
    else 1 + FirstMaskIndex(hits[1..])
  }

  /** The first Mask in query order, or null when there is none. */
  function FirstMask(hits: seq<Mask?>): (chosen: Mask?)
    ensures chosen == null <==> forall j :: 0 <= j < |hits| ==> hits[j] == null
    ensures chosen != null ==> chosen in hits
  {
    var k := FirstMaskIndex(hits);
    if k < |hits| then hits[k] else null
  }

  class MaskPickup {
    /** The PlayerAttack on the same player object. */
    const attackComp: PlayerAttack

    constructor (attackComp: PlayerAttack)
      ensures this.attackComp == attackComp
    {
      this.attackComp := attackComp;
    }

    /** Equips the first Mask among the hits and returns it as the object to destroy
        (null: nothing picked up, nothing changed). */
    method TryPickup(hits: seq<Mask?>) returns (chosen: Mask?)
      modifies attackComp`currentMask
      ensures chosen == FirstMask(hits)
      ensures chosen != null ==> attackComp.currentMask == Some(chosen.GetMaskType())
      ensures chosen == null ==> attackComp.currentMask == old(attackComp.currentMask)
    {
      if |hits| == 0 {
        return null;
      }
      chosen := null;
      var i := 0;
      while i < |hits|
        invariant 0 <= i <= |hits|
        invariant forall j :: 0 <= j < i ==> hits[j] == null
        invariant chosen == null
      {
        var m := hits[i];
        if m != null {
          chosen := m;
          break;
        }
        i := i + 1;
      }
      if chosen == null {
        return;
      }
      attackComp.SetMask(Some(chosen.GetMaskType()));
    }
  }
}
