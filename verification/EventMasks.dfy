/** Event masks of `struct epoll_event` and of the poll interface, as sets of bits. */
module EventMasks {

  datatype Bit =
    | PollIn | PollPri | PollOut | PollErr | PollHup | PollRdHup | PollFree | PollOther(code: nat)
    | OneShot | EdgeTriggered | WakeUp | Exclusive

  type Mask = set<Bit>

  // EP_PRIVATE_BITS: the bits that configure epoll and are never reported by a file
  const PRIVATE_BITS: Mask := {WakeUp, OneShot, EdgeTriggered, Exclusive}

  /** A mask without poll bits disables its descriptor. */
  predicate Disabled(mask: Mask) {
    mask - PRIVATE_BITS == {}
  }

  /** A callback concerns an item when the item is enabled and the key, if given, meets its mask. */
  predicate Matches(mask: Mask, key: Mask) {
    !Disabled(mask) && (key == {} || key * mask != {})
  }

  /**
   * The condition bit by bit: the mask asks for some event besides the four configuration bits, and
   * the callback names no event or one of the mask.
   */
  ghost predicate Hits(mask: Mask, key: Mask) {
    && (exists b :: b in mask && b != OneShot && b != EdgeTriggered && b != WakeUp && b != Exclusive)
    && (key == {} || exists b :: b in key && b in mask)
  }

  lemma MatchesIffHits(mask: Mask, key: Mask)
    ensures Matches(mask, key) <==> Hits(mask, key)
  {
    if Matches(mask, key) {
      var b :| b in mask - PRIVATE_BITS;
      assert b in mask && b != OneShot && b != EdgeTriggered && b != WakeUp && b != Exclusive;
      if key != {} {
        var k :| k in key * mask;
        assert k in key && k in mask;
      }
    }
    if Hits(mask, key) {
      var b :| b in mask && b != OneShot && b != EdgeTriggered && b != WakeUp && b != Exclusive;
      assert b in mask - PRIVATE_BITS;
      if key != {} {
        var k :| k in key && k in mask;
        assert k in key * mask;
      }
    }
  }

  /** Neither one-shot nor edge-triggered. */
  predicate LevelTriggered(mask: Mask) {
    OneShot !in mask && EdgeTriggered !in mask
  }
}
