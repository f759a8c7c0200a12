/**
 * Reconstruction of the target package's layers from the compositor dump
 * (Device.updateLayerList and Device.findChildrenLayers).
 *
 * The dump is seen as a sequence of layer blocks: a header line
 * "+ Layer <address> (<heading>)" followed by the attribute lines the grep
 * keeps. A layer name from the compositor's list selects the blocks whose
 * heading starts with it. A worklist of names, seeded with the listed names
 * that mention the package and extended with the children named by
 * `parent=` references, is drained; each name yields at most one layer, from
 * the first selected block that has an active buffer and no buffer slot,
 * and that block is then removed from the dump.
 */
module LayerList {
  import opened Text
  import opened Layers

  /** The attribute lines of a block, as the patterns of the dump parser see them. */
  datatype Attr =
    | Slot                          // ".*slot=(\S*)": a buffer-queue slot line
    | ActiveBuffer(w: nat, h: nat)  // "activeBuffer=[<w>x<h>:...": the two numbers after stripping
    | Pos(x: int, y: int)           // "pos=(<x>,<y>),"
    | ZOrder(z: int)                // "z=<z>,"
    | Parent(name: string)          // "parent=<name>"
    | OtherAttr

  datatype Record = Record(address: string, heading: string, attrs: seq<Attr>)

  /** The header pattern built from a quoted layer name: the heading starts with the name. */
  predicate HeadingMatches(heading: string, name: string)
  {
    StartsWith(heading, name)
  }

  function FirstBuffer(attrs: seq<Attr>): (r: Option<(nat, nat)>)
    ensures r.Some? ==> ActiveBuffer(r.value.0, r.value.1) in attrs
    ensures r.None? ==> forall i :: 0 <= i < |attrs| ==> !attrs[i].ActiveBuffer?
  {
    if attrs == [] then None
    else if attrs[0].ActiveBuffer? then Some((attrs[0].w, attrs[0].h))
    else FirstBuffer(attrs[1..])
  }

  function FirstPos(attrs: seq<Attr>): Option<(int, int)>
  {
    if attrs == [] then None
    else if attrs[0].Pos? then Some((attrs[0].x, attrs[0].y))
    else FirstPos(attrs[1..])
  }

  function FirstZ(attrs: seq<Attr>): Option<int>
  {
    if attrs == [] then None
    else if attrs[0].ZOrder? then Some(attrs[0].z)
    else FirstZ(attrs[1..])
  }

  /** Integer.parseInt's range: the buffer size of a block that yields a layer must fit, or the update throws. */
  predicate SizesFit(r: Record)
  {
    match FirstBuffer(r.attrs)
    case Some((w, h)) => w <= INT_MAX && h <= INT_MAX
    case None => true
  }

  /** A dump whose buffer sizes all fit an int: the size parse of updateLayerList cannot throw. */
  predicate WellFormed(info: seq<Record>)
  {
    info == [] || (SizesFit(info[0]) && WellFormed(info[1..]))
  }

  predicate InIntRange(v: int)
  {
    INT_MIN <= v <= INT_MAX
  }

  /**
   * The position and z-order read from a block, -1 where absent. Both
   * coordinates are read from the first group of the position pattern, and
   * a number out of int range aborts the rest of the reading (caught), so
   * an unreadable x also leaves z at -1.
   */
  function Geometry(attrs: seq<Attr>): (g: (int, int, int))
    ensures g.0 == g.1
    ensures FirstPos(attrs).None? ==> g.0 == -1
    ensures FirstPos(attrs).Some? && InIntRange(FirstPos(attrs).value.0) ==> g.0 == FirstPos(attrs).value.0
    ensures FirstPos(attrs).Some? && !InIntRange(FirstPos(attrs).value.0) ==> g == (-1, -1, -1)
  {
    var pos := FirstPos(attrs);
    if pos.Some? && !InIntRange(pos.value.0) then (-1, -1, -1)
    else
      var x := if pos.Some? then pos.value.0 else -1;
      var z := match FirstZ(attrs)
        case Some(v) => if InIntRange(v) then v else -1
        case None => -1;
      (x, x, z)
  }

  /** The layer built from block r for the name it was selected by. */
  function BuildLayer(name: string, pkg: string, id: int, r: Record): Layer
    requires FirstBuffer(r.attrs).Some?
  {
    var size := FirstBuffer(r.attrs).value;
    var g := Geometry(r.attrs);
    NewLayer(name, pkg, true, id, size.0, size.1, g.0, g.1, g.2)
  }

  // ---------------------------------------------------------------------
  // findChildrenLayers

  /** The first name of the full list that selects the given heading. */
  function FirstListed(listFull: seq<string>, heading: string, k: nat): (r: Option<string>)
    ensures r.Some? ==> r.value in listFull && HeadingMatches(heading, r.value)
    ensures r.None? ==> forall i :: k <= i < |listFull| ==> !HeadingMatches(heading, listFull[i])
    decreases |listFull| - k
  {
    if k >= |listFull| then None
    else if HeadingMatches(heading, listFull[k]) then Some(listFull[k])
    else FirstListed(listFull, heading, k + 1)
  }

  /** One child per `parent=` line of the block that names the parent. */
  function AttrChildren(parent: string, heading: string, attrs: seq<Attr>, listFull: seq<string>): seq<string>
  {
    if attrs == [] then []
    else AttrChild(parent, heading, attrs[0], listFull) + AttrChildren(parent, heading, attrs[1..], listFull)
  }

  /** The child one attribute line contributes: the first listed name for the heading, when the line names the parent. */
  function AttrChild(parent: string, heading: string, attr: Attr, listFull: seq<string>): seq<string>
  {
    if attr.Parent? && StartsWith(attr.name, parent) then
      match FirstListed(listFull, heading, 0) case Some(n) => [n] case None => []
    else []
  }

  function ChildrenOf(parent: string, info: seq<Record>, listFull: seq<string>): seq<string>
  {
    if info == [] then []
    else AttrChildren(parent, info[0].heading, info[0].attrs, listFull) + ChildrenOf(parent, info[1..], listFull)
  }

  lemma {:induction false} AttrChildrenListed(parent: string, heading: string, attrs: seq<Attr>, listFull: seq<string>)
    ensures forall c :: c in AttrChildren(parent, heading, attrs, listFull) ==> c in listFull && HeadingMatches(heading, c)
    decreases |attrs|
  {
    if attrs != [] {
      AttrChildrenListed(parent, heading, attrs[1..], listFull);
    }
  }

  /** Every child is a listed name that selects a block holding a `parent=` reference to the parent. */
  lemma {:induction false} ChildrenAreListed(parent: string, info: seq<Record>, listFull: seq<string>)
    ensures forall c :: c in ChildrenOf(parent, info, listFull) ==>
      c in listFull && exists r :: r in info && HeadingMatches(r.heading, c)
    decreases |info|
  {
    if info != [] {
      AttrChildrenListed(parent, info[0].heading, info[0].attrs, listFull);
      ChildrenAreListed(parent, info[1..], listFull);
      forall c | c in ChildrenOf(parent, info, listFull)
        ensures c in listFull && exists r :: r in info && HeadingMatches(r.heading, c)
      {
        if c in AttrChildren(parent, info[0].heading, info[0].attrs, listFull) {
          assert info[0] in info;
        } else {
          var r :| r in info[1..] && HeadingMatches(r.heading, c);
          assert r in info;
        }
      }
    }
  }

  /** A dump without `parent=` references names no children. */
  lemma {:induction false} NoParentNoChildren(parent: string, info: seq<Record>, listFull: seq<string>)
    requires forall i, j :: 0 <= i < |info| && 0 <= j < |info[i].attrs| ==> !info[i].attrs[j].Parent?
    ensures ChildrenOf(parent, info, listFull) == []
    decreases |info|
  {
    if info != [] {
      NoParentsInBlock(parent, info[0].heading, info[0].attrs, listFull);
      NoParentNoChildren(parent, info[1..], listFull);
    }
  }

  lemma {:induction false} NoParentsInBlock(parent: string, heading: string, attrs: seq<Attr>, listFull: seq<string>)
    requires forall j :: 0 <= j < |attrs| ==> !attrs[j].Parent?
    ensures AttrChildren(parent, heading, attrs, listFull) == []
    decreases |attrs|
  {
    if attrs != [] {
      NoParentsInBlock(parent, heading, attrs[1..], listFull);
    }
  }

  method FindFirstListed(listFull: seq<string>, heading: string) returns (r: Option<string>)
    ensures r == FirstListed(listFull, heading, 0)
  {
    r := None;
    for k := 0 to |listFull|
      invariant FirstListed(listFull, heading, 0) == FirstListed(listFull, heading, k)
    {
      if HeadingMatches(heading, listFull[k]) {
        return Some(listFull[k]);
      }
    }
  }

  method FindChildrenLayers(parent: string, info: seq<Record>, listFull: seq<string>) returns (children: seq<string>)
    ensures children == ChildrenOf(parent, info, listFull)
  {
    children := [];
    var i := 0;
    while i < |info|
      invariant 0 <= i <= |info|
      invariant ChildrenOf(parent, info, listFull) == children + ChildrenOf(parent, info[i..], listFull)
    {
      ChildrenStep(parent, info, i, listFull, children);
      var found := BlockChildren(parent, info[i].heading, info[i].attrs, listFull);
      children := children + found;
      i := i + 1;
    }
    assert info[i..] == [];
  }

  /** The block loop's invariant carried over block i. */
  lemma ChildrenStep(parent: string, info: seq<Record>, i: nat, listFull: seq<string>, children: seq<string>)
    requires i < |info|
    requires ChildrenOf(parent, info, listFull) == children + ChildrenOf(parent, info[i..], listFull)
    ensures ChildrenOf(parent, info, listFull)
      == (children + AttrChildren(parent, info[i].heading, info[i].attrs, listFull)) + ChildrenOf(parent, info[i + 1..], listFull)
  {
    assert info[i..][0] == info[i] && info[i..][1..] == info[i + 1..];
  }

  /** The attribute loop over one block of the dump. */
  method BlockChildren(parent: string, heading: string, attrs: seq<Attr>, listFull: seq<string>) returns (found: seq<string>)
    ensures found == AttrChildren(parent, heading, attrs, listFull)
  {
    found := [];
    var j := 0;
    while j < |attrs|
      invariant 0 <= j <= |attrs|
      invariant AttrChildren(parent, heading, attrs, listFull) == found + AttrChildren(parent, heading, attrs[j..], listFull)
    {
      AttrStep(parent, heading, attrs, j, listFull, found);
      var here := LineChild(parent, heading, attrs[j], listFull);
      found := found + here;
      j := j + 1;
    }
    assert attrs[j..] == [];
  }

  /** The attribute loop's invariant carried over line j. */
  lemma AttrStep(parent: string, heading: string, attrs: seq<Attr>, j: nat, listFull: seq<string>, found: seq<string>)
    requires j < |attrs|
    requires AttrChildren(parent, heading, attrs, listFull) == found + AttrChildren(parent, heading, attrs[j..], listFull)
    ensures AttrChildren(parent, heading, attrs, listFull)
      == (found + AttrChild(parent, heading, attrs[j], listFull)) + AttrChildren(parent, heading, attrs[j + 1..], listFull)
  {
    assert attrs[j..][0] == attrs[j] && attrs[j..][1..] == attrs[j + 1..];
  }

  /** The body of the attribute loop: a `parent=` line naming the parent adds the first listed name for the heading. */
  method LineChild(parent: string, heading: string, attr: Attr, listFull: seq<string>) returns (here: seq<string>)
    ensures here == AttrChild(parent, heading, attr, listFull)
  {
    here := [];
    if attr.Parent? && StartsWith(attr.name, parent) {
      var name := FindFirstListed(listFull, heading);
      if name.Some? {
        here := [name.value];
      }
    }
  }

  // ---------------------------------------------------------------------
  // The worklist

  /** The stream filter: children not already waiting (duplicates among them are kept). */
  function NotPending(children: seq<string>, pending: seq<string>): (r: seq<string>)
    ensures forall c :: c in r ==> c in children && c !in pending
  {
    if children == [] then []
    else (if children[0] in pending then [] else [children[0]]) + NotPending(children[1..], pending)
  }

  /** `info.replace(block, "")`: every copy of the block leaves the dump. */
  function RemoveBlock(info: seq<Record>, r: Record): (res: seq<Record>)
    ensures |res| <= |info|
    ensures r in info ==> |res| < |info|
    ensures forall x :: x in res <==> x in info && x != r
  {
    if info == [] then []
    else (if info[0] == r then [] else [info[0]]) + RemoveBlock(info[1..], r)
  }

  datatype Scan = Scan(pending: seq<string>, hit: Option<nat>)

  /**
   * The scan of the dump for one polled name from block j on: every selected
   * block queues the parent's children; the first selected block with a
   * buffer and without a slot is the hit.
   */
  function ScanFrom(name: string, info: seq<Record>, j: nat, pending: seq<string>, listFull: seq<string>): (s: Scan)
    ensures s.hit.Some? ==> j <= s.hit.value < |info|
    ensures s.hit.Some? ==> var r := info[s.hit.value];
      HeadingMatches(r.heading, name) && Slot !in r.attrs && FirstBuffer(r.attrs).Some?
    decreases |info| - j
  {
    if j >= |info| then Scan(pending, None)
    else if !HeadingMatches(info[j].heading, name) then ScanFrom(name, info, j + 1, pending, listFull)
    else
      var queued := pending + NotPending(ChildrenOf(name, info, listFull), pending);
      if Slot in info[j].attrs || FirstBuffer(info[j].attrs).None? then ScanFrom(name, info, j + 1, queued, listFull)
      else Scan(queued, Some(j))
  }

  function CountName(layers: seq<Layer>, name: string): nat
  {
    if layers == [] then 0
    else CountName(layers[..|layers| - 1], name) + (if layers[|layers| - 1].layerName == name then 1 else 0)
  }

  /** The state of the worklist loop: the waiting names, what is left of the dump, the layers built so far. */
  datatype Work = Work(pending: seq<string>, info: seq<Record>, acc: seq<Layer>)

  /**
   * One poll of the worklist: the head name is scanned for, and a hit builds
   * the name's next layer from the block, which then leaves the dump.
   */
  function Poll(w: Work, listFull: seq<string>, pkg: string): Work
    requires w.pending != []
  {
    var name := w.pending[0];
    var s := ScanFrom(name, w.info, 0, w.pending[1..], listFull);
    match s.hit
    case None => Work(s.pending, w.info, w.acc)
    case Some(j) =>
      Work(s.pending, RemoveBlock(w.info, w.info[j]), w.acc + [BuildLayer(name, pkg, CountName(w.acc, name), w.info[j])])
  }

  /**
   * The layers built by draining the worklist. The worklist need not drain
   * (a `parent=` cycle among blocks that are never removed keeps re-queueing
   * names), so at most `fuel` names are polled.
   */
  function Collect(w: Work, listFull: seq<string>, pkg: string, fuel: nat): seq<Layer>
    decreases fuel
  {
    if fuel == 0 || w.pending == [] then w.acc
    else Collect(Poll(w, listFull, pkg), listFull, pkg, fuel - 1)
  }

  /**
   * The matcher loop for one polled name: each selected block queues the
   * name's children; the scan stops at the first selected block with a
   * buffer and no slot, whose index is returned.
   */
  method MatchBlocks(layerName: string, info: seq<Record>, layerList0: seq<string>, listFull: seq<string>)
    returns (layerList: seq<string>, hit: Option<nat>)
    ensures Scan(layerList, hit) == ScanFrom(layerName, info, 0, layerList0, listFull)
  {
    layerList := layerList0;
    hit := None;
    var j := 0;
    while j < |info|
      invariant 0 <= j <= |info|
      invariant ScanFrom(layerName, info, 0, layerList0, listFull) == ScanFrom(layerName, info, j, layerList, listFull)
    {
      if HeadingMatches(info[j].heading, layerName) {
        var children := FindChildrenLayers(layerName, info, listFull);
        layerList := layerList + NotPending(children, layerList);
        if Slot in info[j].attrs {
          j := j + 1;
          continue;
        }
        if FirstBuffer(info[j].attrs).Some? {
          hit := Some(j);
          return;
        }
      }
      j := j + 1;
    }
  }

  /** idMap.getOrDefault(name, 0). */
  function IdOf(idMap: map<string, nat>, name: string): nat
  {
    if name in idMap then idMap[name] else 0
  }

  /** The worklist loop of updateLayerList, over a copy of the dump it removes blocks from. */
  method CollectLayers(layerList0: seq<string>, info0: seq<Record>, listFull: seq<string>, pkg: string, fuel: nat)
    returns (updated: seq<Layer>)
    ensures updated == Collect(Work(layerList0, info0, []), listFull, pkg, fuel)
  {
    var layerList := layerList0;
    var info := info0;
    var idMap: map<string, nat> := map[];
    updated := [];
    var steps := 0;
    while steps < fuel && layerList != []
      invariant 0 <= steps <= fuel
      invariant Collect(Work(layerList0, info0, []), listFull, pkg, fuel) == Collect(Work(layerList, info, updated), listFull, pkg, fuel - steps)
      invariant IdsCounted(idMap, updated)
    {
      layerList, info, updated, idMap := PollOnce(layerList, info, updated, idMap, listFull, pkg);
      steps := steps + 1;
    }
  }

  /** The id map holds, per name, how many layers of that name are built. */
  ghost predicate IdsCounted(idMap: map<string, nat>, updated: seq<Layer>)
  {
    forall n :: IdOf(idMap, n) == CountName(updated, n)
  }

  /** One turn of the worklist loop: the head name is polled and a hit builds and appends its layer. */
  method PollOnce(layerList: seq<string>, info: seq<Record>, updated: seq<Layer>, idMap: map<string, nat>, listFull: seq<string>, pkg: string)
    returns (nextList: seq<string>, nextInfo: seq<Record>, nextUpdated: seq<Layer>, nextIds: map<string, nat>)
    requires layerList != [] && IdsCounted(idMap, updated)
    ensures Work(nextList, nextInfo, nextUpdated) == Poll(Work(layerList, info, updated), listFull, pkg)
    ensures IdsCounted(nextIds, nextUpdated)
  {
    var layerName := layerList[0];
    var hit;
    nextList, hit := MatchBlocks(layerName, info, layerList[1..], listFull);
    nextInfo, nextUpdated, nextIds := info, updated, idMap;
    if hit.Some? {
      var block := info[hit.value];
      var id := IdOf(idMap, layerName);
      var layer := BuildLayer(layerName, pkg, id, block);
      nextIds := idMap[layerName := id + 1];
      nextInfo := RemoveBlock(info, block);
      nextUpdated := updated + [layer];
      CountAppend(updated, layer);
    }
  }

  lemma CountAppend(updated: seq<Layer>, layer: Layer)
    ensures forall n :: CountName(updated + [layer], n) == CountName(updated, n) + (if layer.layerName == n then 1 else 0)
  {
    assert (updated + [layer])[..|updated|] == updated;
  }

  // Properties of the worklist

  /** Per name, ordinals count up from 0 in list order. */
  predicate DenseOrdinals(s: seq<Layer>)
  {
    forall k :: 0 <= k < |s| ==> s[k].id == CountName(s[..k], s[k].layerName)
  }

  /** l is the layer block r yields for the package. */
  predicate BuiltFrom(l: Layer, r: Record, pkg: string)
  {
    && HeadingMatches(r.heading, l.layerName)
    && Slot !in r.attrs
    && FirstBuffer(r.attrs) == Some((l.w, l.h))
    && Geometry(r.attrs) == (l.x, l.y, l.z)
    && l.isVisible && l.packageName == pkg
    && (l.isSurfaceView <==> StartsWith(l.layerName, SURFACE_VIEW_PREFIX))
  }

  /** l is built from some block of the dump. */
  predicate FromDump(l: Layer, info: seq<Record>, pkg: string)
  {
    exists r :: r in info && BuiltFrom(l, r, pkg)
  }

  /** A poll keeps the layers built so far and adds at most one. */
  lemma PollExtends(w: Work, listFull: seq<string>, pkg: string)
    requires w.pending != []
    ensures w.acc <= Poll(w, listFull, pkg).acc
    ensures |Poll(w, listFull, pkg).acc| <= |w.acc| + 1
  {
  }

  /** A poll only drops blocks, and drops one for each layer it builds. */
  lemma PollShrinks(w: Work, listFull: seq<string>, pkg: string)
    requires w.pending != []
    ensures forall r :: r in Poll(w, listFull, pkg).info ==> r in w.info
    ensures |Poll(w, listFull, pkg).acc| + |Poll(w, listFull, pkg).info| <= |w.acc| + |w.info|
  {
    var s := ScanFrom(w.pending[0], w.info, 0, w.pending[1..], listFull);
    if s.hit.Some? {
      assert w.info[s.hit.value] in w.info;
    }
  }

  /** A layer a poll builds is named by the polled name and comes from a block of the dump. */
  lemma PollBuilds(w: Work, listFull: seq<string>, pkg: string, info0: seq<Record>)
    requires w.pending != []
    requires forall r :: r in w.info ==> r in info0
    requires |Poll(w, listFull, pkg).acc| > |w.acc|
    ensures Poll(w, listFull, pkg).acc[|w.acc|].layerName == w.pending[0]
    ensures FromDump(Poll(w, listFull, pkg).acc[|w.acc|], info0, pkg)
  {
    var s := ScanFrom(w.pending[0], w.info, 0, w.pending[1..], listFull);
    var r := w.info[s.hit.value];
    assert r in w.info;
    assert BuiltFrom(Poll(w, listFull, pkg).acc[|w.acc|], r, pkg);
  }

  /** Names a poll queues were waiting already or are listed names. */
  lemma PollQueuesListed(w: Work, listFull: seq<string>, pkg: string)
    requires w.pending != []
    ensures forall n :: n in Poll(w, listFull, pkg).pending ==> n in w.pending || n in listFull
  {
    ScanQueuesListed(w.pending[0], w.info, 0, w.pending[1..], listFull);
  }

  /** A poll gives the new layer the next ordinal of its name. */
  lemma PollDense(w: Work, listFull: seq<string>, pkg: string)
    requires w.pending != [] && DenseOrdinals(w.acc)
    ensures DenseOrdinals(Poll(w, listFull, pkg).acc)
  {
    var acc' := Poll(w, listFull, pkg).acc;
    if acc' != w.acc {
      assert acc'[..|w.acc|] == w.acc;
      forall k | 0 <= k < |acc'|
        ensures acc'[k].id == CountName(acc'[..k], acc'[k].layerName)
      {
        if k < |w.acc| {
          assert acc'[..k] == w.acc[..k];
        }
      }
    }
  }

  lemma {:induction false} CollectExtends(w: Work, listFull: seq<string>, pkg: string, fuel: nat)
    ensures w.acc <= Collect(w, listFull, pkg, fuel)
    decreases fuel
  {
    if fuel > 0 && w.pending != [] {
      PollExtends(w, listFull, pkg);
      CollectExtends(Poll(w, listFull, pkg), listFull, pkg, fuel - 1);
      PrefixTransitive(w.acc, Poll(w, listFull, pkg).acc, Collect(w, listFull, pkg, fuel));
    }
  }

  lemma PrefixTransitive(a: seq<Layer>, b: seq<Layer>, c: seq<Layer>)
    requires a <= b && b <= c
    ensures a <= c
  {
    assert c[..|a|] == c[..|b|][..|a|];
  }

  /** Ordinals are dense per name: the k-th layer of a name gets ordinal k. */
  lemma {:induction false} CollectDense(w: Work, listFull: seq<string>, pkg: string, fuel: nat)
    requires DenseOrdinals(w.acc)
    ensures DenseOrdinals(Collect(w, listFull, pkg, fuel))
    decreases fuel
  {
    if fuel > 0 && w.pending != [] {
      PollDense(w, listFull, pkg);
      CollectDense(Poll(w, listFull, pkg), listFull, pkg, fuel - 1);
    }
  }

  /** Every new layer comes from a block of the original dump that has a buffer and no slot. */
  lemma {:induction false} CollectFromBlocks(w: Work, listFull: seq<string>, pkg: string, fuel: nat, info0: seq<Record>)
    requires forall r :: r in w.info ==> r in info0
    ensures forall k :: |w.acc| <= k < |Collect(w, listFull, pkg, fuel)| ==> FromDump(Collect(w, listFull, pkg, fuel)[k], info0, pkg)
    decreases fuel
  {
    if fuel > 0 && w.pending != [] {
      var p := Poll(w, listFull, pkg);
      PollShrinks(w, listFull, pkg);
      PollExtends(w, listFull, pkg);
      CollectFromBlocks(p, listFull, pkg, fuel - 1, info0);
      if |p.acc| > |w.acc| {
        PollBuilds(w, listFull, pkg, info0);
        CollectExtends(p, listFull, pkg, fuel - 1);
        assert Collect(w, listFull, pkg, fuel)[|w.acc|] == p.acc[|w.acc|];
      }
    }
  }

  /** Each block yields at most one layer: no more new layers than blocks in the dump. */
  lemma {:induction false} CollectBound(w: Work, listFull: seq<string>, pkg: string, fuel: nat)
    ensures |Collect(w, listFull, pkg, fuel)| <= |w.acc| + |w.info|
    decreases fuel
  {
    if fuel > 0 && w.pending != [] {
      PollShrinks(w, listFull, pkg);
      CollectBound(Poll(w, listFull, pkg), listFull, pkg, fuel - 1);
    }
  }

  /** Names queued during a scan are the waiting ones or listed names. */
  lemma {:induction false} ScanQueuesListed(name: string, info: seq<Record>, j: nat, pending: seq<string>, listFull: seq<string>)
    ensures forall n :: n in ScanFrom(name, info, j, pending, listFull).pending ==> n in pending || n in listFull
    decreases |info| - j
  {
    if j < |info| && HeadingMatches(info[j].heading, name) {
      var queued := pending + NotPending(ChildrenOf(name, info, listFull), pending);
      ChildrenAreListed(name, info, listFull);
      ScanQueuesListed(name, info, j + 1, queued, listFull);
    } else if j < |info| {
      ScanQueuesListed(name, info, j + 1, pending, listFull);
    }
  }

  /** Waiting names are seed names or listed names. */
  predicate NamesKnown(pending: seq<string>, seed: seq<string>, listFull: seq<string>)
  {
    forall n :: n in pending ==> n in seed || n in listFull
  }

  /** Every new layer is named by the seed worklist or by the compositor's full list. */
  lemma {:induction false} CollectNamesListed(w: Work, listFull: seq<string>, pkg: string, fuel: nat, seed: seq<string>)
    requires NamesKnown(w.pending, seed, listFull)
    ensures forall k :: |w.acc| <= k < |Collect(w, listFull, pkg, fuel)| ==>
      Collect(w, listFull, pkg, fuel)[k].layerName in seed || Collect(w, listFull, pkg, fuel)[k].layerName in listFull
    decreases fuel
  {
    if fuel > 0 && w.pending != [] {
      var p := Poll(w, listFull, pkg);
      PollQueuesListed(w, listFull, pkg);
      assert NamesKnown(p.pending, seed, listFull);
      PollExtends(w, listFull, pkg);
      CollectNamesListed(p, listFull, pkg, fuel - 1, seed);
      if |p.acc| > |w.acc| {
        PollBuilds(w, listFull, pkg, w.info);
        CollectExtends(p, listFull, pkg, fuel - 1);
        assert Collect(w, listFull, pkg, fuel)[|w.acc|] == p.acc[|w.acc|];
        assert w.pending[0] in w.pending;
      }
    }
  }

  // ---------------------------------------------------------------------
  // Sorting by z: List.sort with a comparator on z, which is stable

  predicate SortedByZ(s: seq<Layer>)
  {
    forall i, j :: 0 <= i < j < |s| ==> s[i].z <= s[j].z
  }

  /** Inserts l after every layer whose z is not above its own. */
  function InsertByZ(t: seq<Layer>, l: Layer): (r: seq<Layer>)
    ensures multiset(r) == multiset(t) + multiset{l}
    ensures |r| == |t| + 1
  {
    if t == [] then [l]
    else if t[|t| - 1].z <= l.z then t + [l]
    else
      assert t == t[..|t| - 1] + [t[|t| - 1]];
      InsertByZ(t[..|t| - 1], l) + [t[|t| - 1]]
  }

  function SortByZ(s: seq<Layer>): (r: seq<Layer>)
    ensures multiset(r) == multiset(s)
    ensures |r| == |s|
  {
    if s == [] then []
    else
      assert s == s[..|s| - 1] + [s[|s| - 1]];
      InsertByZ(SortByZ(s[..|s| - 1]), s[|s| - 1])
  }

  /** Every element of the insertion is the inserted layer or one of t. */
  lemma InsertedFrom(t: seq<Layer>, l: Layer, i: nat)
    requires i < |InsertByZ(t, l)|
    ensures InsertByZ(t, l)[i] == l || InsertByZ(t, l)[i] in t
  {
    var r := InsertByZ(t, l);
    assert r[i] in multiset(r);
  }

  /** Every layer of the insertion lies at or below the given bound when t and l do. */
  lemma InsertBelow(t: seq<Layer>, l: Layer, bound: int)
    requires forall k :: 0 <= k < |t| ==> t[k].z <= bound
    requires l.z <= bound
    ensures forall i :: 0 <= i < |InsertByZ(t, l)| ==> InsertByZ(t, l)[i].z <= bound
  {
    var r := InsertByZ(t, l);
    forall i | 0 <= i < |r|
      ensures r[i].z <= bound
    {
      InsertedFrom(t, l, i);
    }
  }

  lemma {:induction false} InsertKeepsSorted(t: seq<Layer>, l: Layer)
    requires SortedByZ(t)
    ensures SortedByZ(InsertByZ(t, l))
    decreases |t|
  {
    if t != [] && t[|t| - 1].z > l.z {
      var init, last := t[..|t| - 1], t[|t| - 1];
      InsertKeepsSorted(init, l);
      InsertBelow(init, l, last.z);
      assert InsertByZ(t, l) == InsertByZ(init, l) + [last];
    }
  }

  /** The result of the sort is ordered by z. */
  lemma {:induction false} SortByZSorted(s: seq<Layer>)
    ensures SortedByZ(SortByZ(s))
    decreases |s|
  {
    if s != [] {
      SortByZSorted(s[..|s| - 1]);
      InsertKeepsSorted(SortByZ(s[..|s| - 1]), s[|s| - 1]);
    }
  }

  /** The layers of one z level, in order. */
  function WithZ(s: seq<Layer>, z: int): seq<Layer>
  {
    if s == [] then [] else WithZ(s[..|s| - 1], z) + Level(s[|s| - 1], z)
  }

  function Level(l: Layer, z: int): seq<Layer>
  {
    if l.z == z then [l] else []
  }

  /** The layers of one z level of s + [l]. */
  lemma WithZSnoc(s: seq<Layer>, l: Layer, z: int)
    ensures WithZ(s + [l], z) == WithZ(s, z) + Level(l, z)
  {
    assert (s + [l])[..|s|] == s;
  }

  lemma {:induction false} InsertByZStable(t: seq<Layer>, l: Layer, z: int)
    ensures WithZ(InsertByZ(t, l), z) == WithZ(t, z) + Level(l, z)
    decreases |t|
  {
    if t == [] {
      WithZSnoc([], l, z);
      assert [] + [l] == [l];
    } else if t[|t| - 1].z <= l.z {
      WithZSnoc(t, l, z);
    } else {
      InsertByZStable(t[..|t| - 1], l, z);
      InsertPastLast(t, l, z, InsertByZ(t[..|t| - 1], l));
    }
  }

  /** Moving l below a higher last layer keeps each level's order: l and the last layer never share a level. */
  lemma InsertPastLast(t: seq<Layer>, l: Layer, z: int, r: seq<Layer>)
    requires t != [] && t[|t| - 1].z > l.z
    requires WithZ(r, z) == WithZ(t[..|t| - 1], z) + Level(l, z)
    ensures WithZ(r + [t[|t| - 1]], z) == WithZ(t, z) + Level(l, z)
  {
    var init, last := t[..|t| - 1], t[|t| - 1];
    WithZSnoc(r, last, z);
    assert WithZ(t, z) == WithZ(init, z) + Level(last, z);
    if l.z == z {
      assert Level(last, z) == [];
      assert WithZ(init, z) + Level(last, z) == WithZ(init, z);
      assert WithZ(init, z) + Level(l, z) + Level(last, z) == WithZ(init, z) + Level(l, z);
    } else {
      assert Level(l, z) == [];
      assert WithZ(init, z) + Level(l, z) == WithZ(init, z);
      assert WithZ(init, z) + Level(last, z) + Level(l, z) == WithZ(init, z) + Level(last, z);
    }
  }

  /** Stability: layers with the same z keep their relative order. */
  lemma {:induction false} SortByZStable(s: seq<Layer>, z: int)
    ensures WithZ(SortByZ(s), z) == WithZ(s, z)
    decreases |s|
  {
    if s != [] {
      SortByZStable(s[..|s| - 1], z);
      InsertByZStable(SortByZ(s[..|s| - 1]), s[|s| - 1], z);
    }
  }

  // ---------------------------------------------------------------------
  // Occlusion

  /** Some layer strictly between k and j, visible on entry to the pass, covers layer k. */
  predicate CoveredBetween(s: seq<Layer>, k: nat, j: nat)
    requires k < |s| && j <= |s|
  {
    exists m :: k < m < j && s[m].isVisible && IsCoveredBy(s[k], s[m])
  }

  /** Some layer above k, visible on entry to the pass, covers layer k. */
  predicate CoveredAbove(s: seq<Layer>, k: nat)
    requires k < |s|
  {
    CoveredBetween(s, k, |s|)
  }

  /** The result of the occlusion pass: a visible layer is hidden when a visible layer above covers it. */
  function Occluded(s: seq<Layer>): (r: seq<Layer>)
    ensures |r| == |s|
    ensures forall k :: 0 <= k < |s| ==> r[k] == s[k].(isVisible := r[k].isVisible)
    ensures forall k :: 0 <= k < |s| ==> (r[k].isVisible <==> s[k].isVisible && !CoveredAbove(s, k))
  {
    seq(|s|, k requires 0 <= k < |s| => s[k].(isVisible := s[k].isVisible && !CoveredAbove(s, k)))
  }

  /** The pass of updateLayerList over the sorted list, in place. */
  method OcclusionPass(a: array<Layer>)
    modifies a
    ensures a[..] == Occluded(old(a[..]))
  {
    ghost var s := a[..];
    var n := a.Length;
    var i := 0;
    while i < n - 1
      invariant 0 <= i <= if n == 0 then 0 else n - 1
      invariant forall k :: 0 <= k < i ==> a[k] == Occluded(s)[k]
      invariant forall k :: i <= k < n ==> a[k] == s[k]
    {
      if a[i].isVisible {
        HideIfCovered(a, i, s);
      }
      i := i + 1;
    }
    if n > 0 {
      assert !CoveredAbove(s, n - 1);
    }
  }

  /** The inner loop: hides layer i when a layer above it, visible on entry, covers it. */
  method HideIfCovered(a: array<Layer>, i: nat, ghost s: seq<Layer>)
    requires a.Length == |s| && i < |s| && s[i].isVisible
    requires forall k :: i <= k < |s| ==> a[k] == s[k]
    modifies a
    ensures a[i] == s[i].(isVisible := !CoveredAbove(s, i))
    ensures forall k :: 0 <= k < a.Length && k != i ==> a[k] == old(a[k])
  {
    var j := i + 1;
    while j < a.Length
      invariant i + 1 <= j <= a.Length
      invariant forall k :: 0 <= k < a.Length && k != i ==> a[k] == old(a[k])
      invariant a[i] == s[i].(isVisible := !CoveredBetween(s, i, j))
    {
      if a[j].isVisible && IsCoveredBy(a[i], a[j]) {
        a[i] := a[i].(isVisible := false);
      }
      j := j + 1;
    }
  }

  /** The topmost layer is never hidden. */
  lemma TopLayerUntouched(s: seq<Layer>)
    requires s != []
    ensures Occluded(s)[|s| - 1] == s[|s| - 1]
  {
  }

  /** Only layers of an in-call UI package are ever hidden. */
  lemma OnlyOverlayLayersHidden(s: seq<Layer>, k: nat)
    requires k < |s| && !Contains(s[k].packageName, OVERLAY_PACKAGE)
    ensures Occluded(s)[k] == s[k]
  {
  }

  /** A second pass changes nothing. */
  lemma OcclusionIdempotent(s: seq<Layer>)
    ensures Occluded(Occluded(s)) == Occluded(s)
  {
  }

  /** Every hidden layer is covered by a layer that stays visible (when no edge sum wraps around). */
  lemma {:induction false} HiddenHasVisibleCover(s: seq<Layer>, k: nat)
    requires k < |s| && s[k].isVisible && !Occluded(s)[k].isVisible
    requires forall i :: 0 <= i < |s| ==> EdgesFit(s[i])
    ensures exists m :: k < m < |s| && Occluded(s)[m].isVisible && IsCoveredBy(s[k], s[m])
    decreases |s| - k
  {
    var m :| k < m < |s| && s[m].isVisible && IsCoveredBy(s[k], s[m]);
    if !Occluded(s)[m].isVisible {
      HiddenHasVisibleCover(s, m);
      var m' :| m < m' < |s| && Occluded(s)[m'].isVisible && IsCoveredBy(s[m], s[m']);
      CoveringIsTransitive(s[k], s[m], s[m']);
    }
  }

  // ---------------------------------------------------------------------
  // ArrayList.equals over Layer.equals

  predicate SameLayers(a: seq<Layer>, b: seq<Layer>)
  {
    |a| == |b| && forall k :: 0 <= k < |a| ==> Equals(a[k], b[k])
  }

  /** Lists that differ only in geometry or package compare equal, so such an update reports no change. */
  lemma SameLayersIgnoresGeometry(a: seq<Layer>, b: seq<Layer>)
    requires |a| == |b|
    requires forall k :: 0 <= k < |a| ==> a[k].layerName == b[k].layerName && a[k].id == b[k].id && a[k].isVisible == b[k].isVisible
    ensures SameLayers(a, b)
  {
  }
}
