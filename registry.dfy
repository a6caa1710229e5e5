/**
 * The compartment registry built at start-up from the detected port
 * expanders: every expander offers eight spaces, every space normally
 * becomes a compartment with ids "1", "2", ... in order, and the one large
 * compartment starting at space s absorbs spaces s+1, s+8 and s+9.
 * Also `check_all`, which lists the compartments whose door reads open.
 */
module Registry {
  import opened Common
  import opened Compartments

  /** The ids "1" .. str(n). */
  function Ids(n: nat): set<string>
  {
    if n == 0 then {} else Ids(n - 1) + {NatToString(n)}
  }

  lemma {:induction false} IdsMeaning(n: nat)
    ensures forall i :: 1 <= i <= n ==> NatToString(i) in Ids(n)
  {
    if n > 0 {
      IdsMeaning(n - 1);
    }
  }

  /** Every id among "1" .. str(n) is the text of a number between 1 and n. */
  lemma {:induction false} IdOfKey(n: nat, k: string) returns (i: nat)
    requires k in Ids(n)
    ensures 1 <= i <= n && k == NatToString(i)
  {
    if k == NatToString(n) {
      i := n;
    } else {
      i := IdOfKey(n - 1, k);
    }
  }

  /** A number above n has no id among "1" .. str(n). */
  lemma {:induction false} IdsBelow(n: nat, j: nat)
    requires j > n
    ensures NatToString(j) !in Ids(n)
  {
    if n > 0 {
      IdsBelow(n - 1, j);
      if NatToString(j) == NatToString(n) {
        NatToStringInjective(j, n);
      }
    }
  }

  /** The registry's keys are exactly "1" .. str(|m|). */
  ghost predicate Numbered(m: map<string, Compartment>)
  {
    m.Keys == Ids(|m|)
  }

  lemma IdRegistered(m: map<string, Compartment>, i: nat)
    requires Numbered(m) && 1 <= i <= |m|
    ensures NatToString(i) in m
  {
    IdsMeaning(|m|);
  }

  /**
   * A registry whose keys are "1" .. str(n) and whose compartment under
   * str(i + 1) is `objs[i]`, every one of them consistent. `objs` lists the
   * distinct compartment objects in id order; it is not part of the running program.
   */
  ghost predicate Registered(m: map<string, Compartment>, objs: seq<Compartment>)
    reads objs
  {
    && Numbered(m) && |objs| == |m|
    && (forall i :: 0 <= i < |objs| ==> Id(i) in m && m[Id(i)] == objs[i])
    && (forall i :: 0 <= i < |objs| ==> objs[i].Valid())
    && (forall i, j :: 0 <= i < j < |objs| ==> objs[i] != objs[j])
  }

  /** Every key of a registry is the id of one of its positions. */
  lemma KeyPosition(m: map<string, Compartment>, objs: seq<Compartment>, k: string) returns (i: nat)
    requires Registered(m, objs) && k in m
    ensures i < |objs| && k == Id(i) && m[k] == objs[i]
  {
    var n := IdOfKey(|m|, k);
    i := n - 1;
  }

  /** The lines, LEDs and initial state the start-up loop gives one compartment. */
  datatype Slot = Slot(inputs: seq<Pin>, outputs: seq<Pin>, leds: seq<int>)

  /** Spaces are numbered from 1: space e * 8 + k + 1 is position k of expander e. */
  function InputPin(space: int): Pin
    requires space >= 1
  {
    Pin((space - 1) / 8, 2 * ((space - 1) % 8))
  }

  function OutputPin(space: int): Pin
    requires space >= 1
  {
    Pin((space - 1) / 8, 2 * ((space - 1) % 8) + 1)
  }

  /** An ordinary compartment: the space's I/O pair and the LED just before it. */
  function PlainSlot(space: int): Slot
    requires space >= 1
  {
    Slot([InputPin(space)], [OutputPin(space)], [space - 1])
  }

  /**
   * The loop looks compartment str(s) up whenever it meets space s+1, s+8 or
   * s+9; that compartment exists unless s < 1, and the lookup fails
   * (KeyError) when s < 1 and one of those spaces is visited.
   */
  predicate StartResolvable(s: int, spaces: nat)
  {
    s >= 1 || (!(1 <= s + 1 <= spaces) && !(1 <= s + 8 <= spaces) && !(1 <= s + 9 <= spaces))
  }

  /** The compartments after the loop has visited spaces 1 .. spaces, in id order. */
  function LayoutAfter(s: int, spaces: nat): (slots: seq<Slot>)
    requires StartResolvable(s, spaces)
    ensures |slots| <= spaces
    ensures 1 <= s <= spaces ==> |slots| >= s
    ensures spaces < s ==> |slots| == spaces
  {
    if spaces == 0 then []
    else
      var prev := LayoutAfter(s, spaces - 1);
      var space := spaces;
      if space == s + 1 || space == s + 9 then
        prev[s - 1 := prev[s - 1].(leds := prev[s - 1].leds + [space - 1])]
      else if space == s + 8 then
        prev[s - 1 := Slot(prev[s - 1].inputs + [InputPin(space)],
                           prev[s - 1].outputs + [OutputPin(space)],
                           prev[s - 1].leds + [space - 1])]
      else
        prev + [PlainSlot(space)]
  }

  /** How many of the spaces s+1, s+8, s+9 lie among 1 .. spaces. */
  function Absorbed(s: int, spaces: nat): nat
  {
    (if 1 <= s + 1 <= spaces then 1 else 0)
    + (if 1 <= s + 8 <= spaces then 1 else 0)
    + (if 1 <= s + 9 <= spaces then 1 else 0)
  }

  /**
   * The large compartment: space s's I/O pair and LED, then the I/O pair of
   * space s+8 and the LEDs of s+1, s+8 and s+9, each only when that space
   * is among the detected spaces 1 .. spaces.
   */
  function LargeSlot(s: int, spaces: nat): Slot
    requires s >= 1
  {
    Slot([InputPin(s)] + (if s + 8 <= spaces then [InputPin(s + 8)] else []),
         [OutputPin(s)] + (if s + 8 <= spaces then [OutputPin(s + 8)] else []),
         [s - 1] + (if s + 1 <= spaces then [s] else [])
                 + (if s + 8 <= spaces then [s + 7] else [])
                 + (if s + 9 <= spaces then [s + 8] else []))
  }

  predicate Single(slot: Slot)
  {
    |slot.inputs| == 1 && |slot.outputs| == 1 && |slot.leds| == 1
  }

  /**
   * The shape of the registry: one compartment per space except the three
   * absorbed ones; compartment s is the large one, every other compartment
   * has exactly one input, one output and one LED.
   */
  lemma {:induction false} LayoutShape(s: int, spaces: nat)
    requires StartResolvable(s, spaces)
    ensures var slots := LayoutAfter(s, spaces);
      && |slots| == spaces - Absorbed(s, spaces)
      && (forall i :: 0 <= i < |slots| && i != s - 1 ==> Single(slots[i]))
      && (1 <= s <= spaces ==> slots[s - 1] == LargeSlot(s, spaces))
  {
    if spaces > 0 {
      LayoutShape(s, spaces - 1);
      var prev := LayoutAfter(s, spaces - 1);
      var slots := LayoutAfter(s, spaces);
      if spaces == s + 1 || spaces == s + 9 {
        assert slots == prev[s - 1 := prev[s - 1].(leds := prev[s - 1].leds + [spaces - 1])];
      } else if spaces == s + 8 {
        assert slots[s - 1].inputs == prev[s - 1].inputs + [InputPin(spaces)];
      } else {
        assert slots == prev + [PlainSlot(spaces)];
        if spaces == s {
          assert |prev| == s - 1;
        }
      }
    }
  }

  /** A compartment object as the start-up loop leaves it. */
  ghost predicate Holds(c: Compartment, slot: Slot)
    reads c
  {
    && c.Valid()
    && c.statusInputs == slot.inputs && c.lockOutputs == slot.outputs && c.leds == slot.leds
    && c.doorStatus == Closed && c.contentStatus == Present && AllLow(c.lockLevels)
  }

  /** The compartments created so far, in creation order, are distinct objects laid out as `slots`. */
  ghost predicate Built(objs: seq<Compartment>, slots: seq<Slot>)
    reads objs
  {
    && |objs| == |slots|
    && (forall i :: 0 <= i < |objs| ==> Holds(objs[i], slots[i]))
    && (forall i, j :: 0 <= i < j < |objs| ==> objs[i] != objs[j])
  }

  /** The registry filled by the start-up loop: the k-th compartment created is filed under str(k). */
  function Filed(objs: seq<Compartment>): map<string, Compartment>
  {
    if |objs| == 0 then map[]
    else Filed(objs[..|objs| - 1])[NatToString(|objs|) := objs[|objs| - 1]]
  }

  /** The id of the compartment at position i of a layout. */
  function Id(i: nat): string
  {
    NatToString(i + 1)
  }

  /** A new id str(n + 1) is not yet among "1" .. str(n). */
  lemma FreshId(n: nat)
    ensures NatToString(n + 1) !in Ids(n)
  {
    IdsBelow(n, n + 1);
  }

  /** Filing keeps ids numbered and finds every compartment under its own id. */
  lemma {:induction false} FiledMeaning(objs: seq<Compartment>)
    ensures var m := Filed(objs);
      && |m| == |objs| && Numbered(m)
      && (forall i :: 0 <= i < |objs| ==> Id(i) in m && m[Id(i)] == objs[i])
  {
    if |objs| > 0 {
      var n := |objs| - 1;
      FiledMeaning(objs[..n]);
      FreshId(n);
    }
  }

  /**
   * How visiting space `space` changes layout `before` into `after` when it
   * joins the large compartment s: every other compartment stays as it was,
   * s gains the space's LED and, for space s+8, its I/O pair.
   */
  ghost predicate Absorbs(before: seq<Slot>, after: seq<Slot>, s: int, space: nat)
    requires space >= 1
  {
    && 1 <= s <= |before| && |after| == |before|
    && (forall i :: 0 <= i < |after| && i != s - 1 ==> after[i] == before[i])
    && after[s - 1].leds == before[s - 1].leds + [space - 1]
    && after[s - 1].inputs == before[s - 1].inputs + (if space == s + 8 then [InputPin(space)] else [])
    && after[s - 1].outputs == before[s - 1].outputs + (if space == s + 8 then [OutputPin(space)] else [])
  }

  lemma AbsorbStep(s: int, space: nat)
    requires 1 <= space && StartResolvable(s, space)
    requires space == s + 1 || space == s + 8 || space == s + 9
    ensures Absorbs(LayoutAfter(s, space - 1), LayoutAfter(s, space), s, space)
  {
  }

  /**
   * Space s+1, s+8 or s+9 joins the large compartment `first`, the one
   * filed under str(s): its LED, and for s+8 its I/O pair too.
   */
  method AbsorbSpace(first: Compartment, ghost objs: seq<Compartment>, ghost before: seq<Slot>, ghost after: seq<Slot>,
                     start: int, space: nat, expander: nat, position: nat)
    requires position < 8 && space == expander * 8 + position + 1
    requires Built(objs, before) && Absorbs(before, after, start, space)
    requires first == objs[start - 1]
    modifies first
    ensures Built(objs, after)
  {
    if space == start + 8 {
      assert InputPin(space) == Pin(expander, position * 2) && OutputPin(space) == Pin(expander, position * 2 + 1);
      first.AddInput(Pin(expander, position * 2));
      first.AddOutput(Pin(expander, position * 2 + 1));
    }
    first.leds := first.leds + [space - 1];
    assert Holds(first, after[start - 1]);
    forall i | 0 <= i < |after| && i != start - 1
      ensures Holds(objs[i], after[i])
    {
      assert old(Holds(objs[i], before[i]));
    }
  }

  /** Any other space becomes a compartment of its own: its I/O pair and the LED just before it. */
  method NewCompartment(space: int, expander: nat, position: nat) returns (created: Compartment)
    requires position < 8 && space == expander * 8 + position + 1
    ensures fresh(created) && Holds(created, PlainSlot(space))
  {
    assert InputPin(space) == Pin(expander, position * 2) && OutputPin(space) == Pin(expander, position * 2 + 1);
    created := new Compartment(Pin(expander, position * 2), Pin(expander, position * 2 + 1));
    created.leds := [space - 1];
  }

  /** What visiting space `space` does to the layout: it joins compartment s or becomes a new one. */
  ghost predicate Step(before: seq<Slot>, after: seq<Slot>, s: int, space: nat)
    requires space >= 1
  {
    if space == s + 1 || space == s + 8 || space == s + 9 then Absorbs(before, after, s, space)
    else after == before + [PlainSlot(space)]
  }

  lemma LayoutStep(s: int, visited: nat, space: nat)
    requires space == visited + 1 && StartResolvable(s, space)
    ensures Step(LayoutAfter(s, visited), LayoutAfter(s, space), s, space)
  {
    if space == s + 1 || space == s + 8 || space == s + 9 {
      AbsorbStep(s, space);
    }
  }

  /** The k-th compartment created is the one filed under str(k + 1). */
  lemma FiledLookup(objs: seq<Compartment>, k: nat)
    requires k < |objs|
    ensures NatToString(k + 1) in Filed(objs) && Filed(objs)[NatToString(k + 1)] == objs[k]
  {
    FiledMeaning(objs);
  }

  /** The new id str(|objs| + 1) extends the filing by the new compartment. */
  lemma FiledAppend(objs: seq<Compartment>, created: Compartment)
    ensures Filed(objs + [created]) == Filed(objs)[NatToString(|objs| + 1) := created]
  {
    assert (objs + [created])[..|objs|] == objs;
  }

  /** A new compartment, distinct from the others, appended with its own slot. */
  lemma BuiltAppend(objs: seq<Compartment>, slots: seq<Slot>, created: Compartment, slot: Slot)
    requires Built(objs, slots) && Holds(created, slot)
    requires forall i :: 0 <= i < |objs| ==> objs[i] != created
    ensures Built(objs + [created], slots + [slot])
  {
    var grown, laid := objs + [created], slots + [slot];
    forall i | 0 <= i < |grown|
      ensures Holds(grown[i], laid[i])
    {
      if i < |objs| {
        assert grown[i] == objs[i] && laid[i] == slots[i];
      }
    }
  }

  /**
   * One step of the start-up loop, at position `position` of expander
   * `expander`: the space joins the large compartment, looked up under
   * str(start), or becomes the next compartment, filed under str(counter).
   */
  method PlaceSpace(compartments: map<string, Compartment>, ghost objs: seq<Compartment>, counter: nat,
                    ghost before: seq<Slot>, ghost after: seq<Slot>,
                    start: int, space: nat, expander: nat, position: nat)
    returns (placed: map<string, Compartment>, ghost placedObjs: seq<Compartment>, next: nat)
    requires position < 8 && space == expander * 8 + position + 1
    requires Built(objs, before) && Step(before, after, start, space)
    requires compartments == Filed(objs) && counter == |objs| + 1
    modifies objs
    ensures Built(placedObjs, after)
    ensures placed == Filed(placedObjs) && next == |placedObjs| + 1
    ensures |objs| <= |placedObjs| && forall i :: 0 <= i < |objs| ==> placedObjs[i] == objs[i]
    ensures forall i :: |objs| <= i < |placedObjs| ==> fresh(placedObjs[i])
  {
    if space == start + 1 || space == start + 8 || space == start + 9 {
      // a space of the large compartment other than its first
      FiledLookup(objs, start - 1);
      var first := compartments[NatToString(start)];
      AbsorbSpace(first, objs, before, after, start, space, expander, position);
      placed, placedObjs, next := compartments, objs, counter;
    } else {
      var created := NewCompartment(space, expander, position);
      placed := compartments[NatToString(counter) := created];
      placedObjs := objs + [created];
      FiledAppend(objs, created);
      BuiltAppend(objs, before, created, PlainSlot(space));
      next := counter + 1;
    }
  }

  /** The inner loop of the start-up loop: the eight spaces of expander `expander`, in order. */
  method PlaceExpander(compartments: map<string, Compartment>, ghost objs: seq<Compartment>, counter: nat,
                       start: int, expander: nat, ghost before: nat)
    returns (placed: map<string, Compartment>, ghost placedObjs: seq<Compartment>, next: nat, ghost reached: nat)
    requires before == expander * 8
    requires StartResolvable(start, before + 8)
    requires Built(objs, LayoutAfter(start, before))
    requires compartments == Filed(objs) && counter == |objs| + 1
    modifies objs
    ensures reached == before + 8
    ensures Built(placedObjs, LayoutAfter(start, reached))
    ensures placed == Filed(placedObjs) && next == |placedObjs| + 1
    ensures |objs| <= |placedObjs| && forall i :: 0 <= i < |objs| ==> placedObjs[i] == objs[i]
    ensures forall i :: |objs| <= i < |placedObjs| ==> fresh(placedObjs[i])
  {
    placed, placedObjs, next := compartments, objs, counter;
    ghost var visited: nat := before;
    ghost var layout := LayoutAfter(start, before);
    for k := 0 to 8
      invariant visited == before + k && layout == LayoutAfter(start, visited)
      invariant next == |placedObjs| + 1 && placed == Filed(placedObjs)
      invariant Built(placedObjs, layout)
      invariant |objs| <= |placedObjs| && forall i :: 0 <= i < |objs| ==> placedObjs[i] == objs[i]
      invariant forall i :: |objs| <= i < |placedObjs| ==> fresh(placedObjs[i])
    {
      var space := expander * 8 + k + 1;
      ghost var previous, grown := placedObjs, LayoutAfter(start, space);
      LayoutStep(start, visited, space);
      placed, placedObjs, next := PlaceSpace(placed, placedObjs, next, layout, grown, start, space, expander, k);
      assert forall i :: 0 <= i < |previous| ==> placedObjs[i] == previous[i];
      visited, layout := space, grown;
    }
    reached := visited;
  }

  /**
   * The start-up loop: only the last entry of the large-compartment list
   * counts (the loop over the list keeps overwriting one variable), then
   * every space of every expander is visited in order.
   */
  method BuildRegistry(expanderCount: nat, largeCompartments: seq<int>)
    returns (compartments: map<string, Compartment>, ghost objs: seq<Compartment>)
    requires |largeCompartments| > 0
    requires StartResolvable(largeCompartments[|largeCompartments| - 1], 8 * expanderCount)
    ensures Registered(compartments, objs)
    ensures Built(objs, LayoutAfter(largeCompartments[|largeCompartments| - 1], 8 * expanderCount))
    ensures forall i :: 0 <= i < |objs| ==> fresh(objs[i])
  {
    var start := 0;
    for index := 0 to |largeCompartments|
      invariant index > 0 ==> start == largeCompartments[index - 1]
    {
      start := largeCompartments[index];
    }
    compartments := map[];
    var counter := 1;
    objs := [];
    ghost var visited: nat := 0;
    for index := 0 to expanderCount
      invariant visited == index * 8
      invariant counter == |objs| + 1 && compartments == Filed(objs)
      invariant Built(objs, LayoutAfter(start, visited))
      invariant forall i :: 0 <= i < |objs| ==> fresh(objs[i])
    {
      ghost var previous := objs;
      compartments, objs, counter, visited := PlaceExpander(compartments, objs, counter, start, index, visited);
      assert forall i :: 0 <= i < |previous| ==> objs[i] == previous[i];
    }
    assert visited == 8 * expanderCount;
    FiledRegistry(objs, LayoutAfter(start, visited));
  }

  /** Built compartments, filed in creation order, form a registry. */
  lemma FiledRegistry(objs: seq<Compartment>, slots: seq<Slot>)
    requires Built(objs, slots)
    ensures Registered(Filed(objs), objs)
  {
    FiledMeaning(objs);
    assert forall i :: 0 <= i < |objs| ==> Holds(objs[i], slots[i]);
  }

  /** The ids, in increasing order, of the compartments among "1" .. str(n) whose door reads open. */
  function OpenIds(m: map<string, Compartment>, levels: Levels, n: nat): seq<string>
    requires Numbered(m) && n <= |m|
    reads m.Values
  {
    if n == 0 then []
    else
      IdRegistered(m, n);
      OpenIds(m, levels, n - 1)
      + (if DoorReadsOpen(m[NatToString(n)].statusInputs, levels) then [NatToString(n)] else [])
  }

  /** `check_all`: asks every compartment, in id order, whether its door reads open. */
  method CheckAll(compartments: map<string, Compartment>, levels: Levels) returns (openComps: seq<string>)
    requires Numbered(compartments)
    ensures openComps == OpenIds(compartments, levels, |compartments|)
  {
    openComps := [];
    for index := 0 to |compartments|
      invariant openComps == OpenIds(compartments, levels, index)
    {
      IdRegistered(compartments, index + 1);
      var open := compartments[NatToString(index + 1)].GetInputs(levels);
      if open {
        openComps := openComps + [NatToString(index + 1)];
      }
    }
  }

  /** `check_all` lists exactly the compartments whose door reads open, and nothing else. */
  lemma {:induction false} OpenIdsMeaning(m: map<string, Compartment>, levels: Levels, n: nat)
    requires Numbered(m) && n <= |m|
    ensures forall x :: x in OpenIds(m, levels, n) <==>
              x in Ids(n) && x in m && DoorReadsOpen(m[x].statusInputs, levels)
  {
    if n > 0 {
      OpenIdsMeaning(m, levels, n - 1);
      IdRegistered(m, n);
    }
  }
}
