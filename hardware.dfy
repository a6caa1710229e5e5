/**
 * Keypad decoding: the capacitive touch controller reports which of its
 * twelve pads are touched as a bit mask, and a key symbol is produced only
 * when exactly one pad is touched.
 */
module Hardware {
  import opened Common

  /** The confirm key, U+2713 CHECK MARK. */
  const Confirm: char := '\U{2713}'
  /** The clear key. */
  const Clear: char := 'x'

  /** The symbol of pad i; the pads are wired in this order. */
  const Keys: seq<char> := ['1', '2', '3', '4', '5', '6', '7', '8', '9', Clear, '0', Confirm]

  const PadCount: nat := 12

  /**
   * A touch mask as the touch controller returns it: the two-byte touch
   * status register, bit i set while pad i is touched.
   */
  type Mask = bv16

  predicate Touched(mask: Mask, i: nat)
    requires i < 16
  {
    mask & (1 << i) != 0
  }

  /** The touched pads among 0 .. n-1, in increasing order. */
  function TouchedPads(mask: Mask, n: nat): (pads: seq<nat>)
    requires n <= PadCount
    ensures forall j :: 0 <= j < |pads| ==> pads[j] < n
  {
    if n == 0 then []
    else TouchedPads(mask, n - 1) + (if Touched(mask, n - 1) then [n - 1] else [])
  }

  /**
   * The key a reading yields; `sensor` is None when no touch controller was
   * detected at start-up.
   */
  function KeyOf(sensor: Option<Mask>): Option<char>
  {
    match sensor
    case None => None
    case Some(mask) =>
      var pads := TouchedPads(mask, PadCount);
      if |pads| == 1 then Some(Keys[pads[0]]) else None
  }

  /** Reads the keypad once: the loop collects the touched pads, then one pad gives its key. */
  method ReadKeypad(sensor: Option<Mask>) returns (key: Option<char>)
    ensures key == KeyOf(sensor)
    ensures key.Some? ==> key.value in Keys
  {
    var touchedList: seq<nat> := [];
    if sensor.Some? {
      var touched := sensor.value;
      for i := 0 to PadCount
        invariant touchedList == TouchedPads(touched, i)
      {
        if Touched(touched, i) {
          touchedList := touchedList + [i];
        }
      }
      if |touchedList| == 1 {
        key := Some(Keys[touchedList[0]]);
      } else {
        key := None;
      }
    } else {
      key := None;
    }
  }

  lemma {:induction false} TouchedPadsExact(mask: Mask, n: nat)
    requires n <= PadCount
    ensures forall i :: 0 <= i < n ==> (Touched(mask, i) <==> i in TouchedPads(mask, n))
    ensures forall j :: 0 <= j < |TouchedPads(mask, n)| ==> Touched(mask, TouchedPads(mask, n)[j])
    ensures forall j, k :: 0 <= j < k < |TouchedPads(mask, n)| ==> TouchedPads(mask, n)[j] < TouchedPads(mask, n)[k]
  {
    if n > 0 {
      TouchedPadsExact(mask, n - 1);
    }
  }

  /** No two pads carry the same symbol. */
  lemma KeysDistinct(p: nat, q: nat)
    requires p < PadCount && q < PadCount && Keys[p] == Keys[q]
    ensures p == q
  {
  }

  lemma {:induction false} PadsOfSingleTouch(mask: Mask, n: nat, i: nat)
    requires n <= PadCount && i < PadCount
    requires forall j :: 0 <= j < n ==> (Touched(mask, j) <==> j == i)
    ensures TouchedPads(mask, n) == if i < n then [i] else []
  {
    if n > 0 {
      PadsOfSingleTouch(mask, n - 1, i);
    }
  }

  /** Exactly one touched pad among the twelve gives that pad's symbol. */
  lemma SinglePadKey(mask: Mask, i: nat)
    requires i < PadCount
    requires forall j :: 0 <= j < PadCount ==> (Touched(mask, j) <==> j == i)
    ensures KeyOf(Some(mask)) == Some(Keys[i])
  {
    PadsOfSingleTouch(mask, PadCount, i);
  }

  /** A key comes only from a reading with exactly one touched pad, the pad of that symbol. */
  lemma KeyFromSinglePad(mask: Mask, i: nat)
    requires i < PadCount
    requires KeyOf(Some(mask)) == Some(Keys[i])
    ensures forall j :: 0 <= j < PadCount ==> (Touched(mask, j) <==> j == i)
  {
    var pads := TouchedPads(mask, PadCount);
    TouchedPadsExact(mask, PadCount);
    assert |pads| == 1;
    KeysDistinct(pads[0], i);
    assert pads == [i];
  }

  /** Several touched pads never yield a key. */
  lemma TwoPadsNoKey(mask: Mask, i: nat, j: nat)
    requires i < PadCount && j < PadCount && i != j
    requires Touched(mask, i) && Touched(mask, j)
    ensures KeyOf(Some(mask)) == None
  {
    TouchedPadsExact(mask, PadCount);
    assert i in TouchedPads(mask, PadCount) && j in TouchedPads(mask, PadCount);
  }

  lemma {:induction false} PadsOfNoTouch(mask: Mask, n: nat)
    requires n <= PadCount
    requires forall j :: 0 <= j < n ==> !Touched(mask, j)
    ensures TouchedPads(mask, n) == []
  {
    if n > 0 {
      PadsOfNoTouch(mask, n - 1);
    }
  }

  /** No touched pad yields no key. */
  lemma NoPadNoKey(mask: Mask)
    requires forall j :: 0 <= j < PadCount ==> !Touched(mask, j)
    ensures KeyOf(Some(mask)) == None
  {
    PadsOfNoTouch(mask, PadCount);
  }

  lemma {:induction false} HighBitsIgnoredUpTo(mask: Mask, n: nat)
    requires n <= PadCount
    ensures TouchedPads(mask, n) == TouchedPads(mask & 0x0FFF, n)
  {
    if n > 0 {
      HighBitsIgnoredUpTo(mask, n - 1);
      assert Touched(mask, n - 1) == Touched(mask & 0x0FFF, n - 1);
    }
  }

  /** Bits 12 to 15 of the mask never change the key read. */
  lemma HighBitsIgnored(mask: Mask)
    ensures KeyOf(Some(mask)) == KeyOf(Some(mask & 0x0FFF))
  {
    HighBitsIgnoredUpTo(mask, PadCount);
  }
}
