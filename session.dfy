/**
 * The device session (Device): the target package and its uid, the layers
 * of the target last reconstructed, the launcher package list, and the
 * three samplers it starts and stops together.
 *
 * Every command output the session reads (adb shell replies, the server's
 * layer listing, the compositor dump) is a parameter of the operation that
 * reads it.
 */
module Session {
  import opened Text
  import opened Layers
  import opened LayerList
  import opened DeviceQueries
  import opened Sampler
  import Fps
  import Cpu
  import Network

  // ---------------------------------------------------------------------
  // The layer update as a function of its inputs

  /** The server's layer listing, or the dumpsys listing when the server sent nothing. */
  function LayerListInfo(listReply: string, listFallback: string): string
  {
    if listReply == "" then listFallback else listReply
  }

  /** The listed names that mention the package: the seed of the worklist. */
  function Seeds(listFull: seq<string>, pkg: string): (r: seq<string>)
    ensures forall n :: n in r <==> n in listFull && Contains(n, pkg)
  {
    if listFull == [] then []
    else
      assert forall n :: n in listFull <==> n == listFull[0] || n in listFull[1..];
      (if Contains(listFull[0], pkg) then [listFull[0]] else []) + Seeds(listFull[1..], pkg)
  }

  /** The layers a rebuild arrives at: collected from the dump, sorted by z, occlusion applied. */
  function Rebuilt(listFull: seq<string>, pkg: string, dump: seq<Record>, fuel: nat): seq<Layer>
  {
    Occluded(SortByZ(Collect(Work(Seeds(listFull, pkg), dump, []), listFull, pkg, fuel)))
  }

  datatype LayerState = LayerState(layers: seq<Layer>, lastLayerInfo: string, changed: bool)

  /**
   * What updateLayerList leaves behind and returns. A listing equal to the
   * last one is not looked at; a listing without the package clears the
   * layers without remembering the listing; otherwise the listing is
   * remembered and the layers are replaced unless they compare equal.
   */
  function NextLayers(layers: seq<Layer>, lastLayerInfo: string, pkg: string,
                      layerListInfo: string, dump: seq<Record>, fuel: nat): LayerState
  {
    if layerListInfo == lastLayerInfo then LayerState(layers, lastLayerInfo, false)
    else
      var listFull := Split(layerListInfo, Literal("\n"));
      if Seeds(listFull, pkg) == [] then LayerState([], lastLayerInfo, layers != [])
      else
        var updated := Rebuilt(listFull, pkg, dump, fuel);
        if SameLayers(layers, updated) then LayerState(layers, layerListInfo, false)
        else LayerState(updated, layerListInfo, true)
  }

  /** The result reports a change exactly when the layers are different afterwards. */
  lemma ChangedIffLayersDiffer(layers: seq<Layer>, lastLayerInfo: string, pkg: string,
                               layerListInfo: string, dump: seq<Record>, fuel: nat)
    ensures NextLayers(layers, lastLayerInfo, pkg, layerListInfo, dump, fuel).changed
        <==> NextLayers(layers, lastLayerInfo, pkg, layerListInfo, dump, fuel).layers != layers
  {
    var listFull := Split(layerListInfo, Literal("\n"));
    if layerListInfo != lastLayerInfo && Seeds(listFull, pkg) != [] {
      var updated := Rebuilt(listFull, pkg, dump, fuel);
      if layers == updated {
        forall k | 0 <= k < |layers|
          ensures Equals(layers[k], updated[k])
        {
          EqualsIsEquivalence(layers[k], layers[k], layers[k]);
        }
      }
    }
  }

  /** A second update with the same listing reports no change and changes nothing, whatever the dump then says. */
  lemma RepeatedListingIsStable(layers: seq<Layer>, lastLayerInfo: string, pkg: string,
                                layerListInfo: string, dump: seq<Record>, fuel: nat, dump': seq<Record>, fuel': nat)
    ensures var r := NextLayers(layers, lastLayerInfo, pkg, layerListInfo, dump, fuel);
      NextLayers(r.layers, r.lastLayerInfo, pkg, layerListInfo, dump', fuel') == r.(changed := false)
  {
  }

  /** l is a layer of the package named in the listing. */
  predicate Listed(l: Layer, listFull: seq<string>, pkg: string)
  {
    l.layerName in listFull && l.packageName == pkg
  }

  /** The collected layers are named in the listing and belong to the package. */
  lemma CollectedListed(listFull: seq<string>, pkg: string, dump: seq<Record>, fuel: nat)
    ensures forall k :: 0 <= k < |Collect(Work(Seeds(listFull, pkg), dump, []), listFull, pkg, fuel)| ==>
      Listed(Collect(Work(Seeds(listFull, pkg), dump, []), listFull, pkg, fuel)[k], listFull, pkg)
  {
    var w := Work(Seeds(listFull, pkg), dump, []);
    var c := Collect(w, listFull, pkg, fuel);
    CollectNamesListed(w, listFull, pkg, fuel, listFull);
    CollectFromBlocks(w, listFull, pkg, fuel, dump);
    forall k | 0 <= k < |c|
      ensures Listed(c[k], listFull, pkg)
    {
      assert FromDump(c[k], dump, pkg);
      var r :| r in dump && BuiltFrom(c[k], r, pkg);
    }
  }

  /** Sorting only reorders: what holds of every layer before holds after. */
  lemma SortKeepsListed(s: seq<Layer>, listFull: seq<string>, pkg: string)
    requires forall k :: 0 <= k < |s| ==> Listed(s[k], listFull, pkg)
    ensures forall k :: 0 <= k < |SortByZ(s)| ==> Listed(SortByZ(s)[k], listFull, pkg)
  {
    var t := SortByZ(s);
    forall k | 0 <= k < |t|
      ensures Listed(t[k], listFull, pkg)
    {
      assert t[k] in multiset(s);
      var i :| 0 <= i < |s| && s[i] == t[k];
    }
  }

  /**
   * After a rebuild every layer is a layer of the target package named in the
   * compositor's listing, the list is ordered by z, and no block of the dump
   * yields more than one layer.
   */
  lemma RebuiltLayers(listFull: seq<string>, pkg: string, dump: seq<Record>, fuel: nat)
    ensures forall k :: 0 <= k < |Rebuilt(listFull, pkg, dump, fuel)| ==> Listed(Rebuilt(listFull, pkg, dump, fuel)[k], listFull, pkg)
    ensures SortedByZ(Rebuilt(listFull, pkg, dump, fuel))
    ensures |Rebuilt(listFull, pkg, dump, fuel)| <= |dump|
  {
    var c := Collect(Work(Seeds(listFull, pkg), dump, []), listFull, pkg, fuel);
    CollectedListed(listFull, pkg, dump, fuel);
    SortKeepsListed(c, listFull, pkg);
    SortByZSorted(c);
    CollectBound(Work(Seeds(listFull, pkg), dump, []), listFull, pkg, fuel);
  }

  /** The rebuild of updateLayerList: the worklist, the sort by z, and the occlusion pass over the sorted array. */
  method Rebuild(layerListFull: seq<string>, pkg: string, dump: seq<Record>, fuel: nat) returns (updated: seq<Layer>)
    ensures updated == Rebuilt(layerListFull, pkg, dump, fuel)
  {
    var collected := CollectLayers(Seeds(layerListFull, pkg), dump, layerListFull, pkg, fuel);
    var sorted := SortByZ(collected);
    var a := new Layer[|sorted|](i requires 0 <= i < |sorted| => sorted[i]);
    assert a[..] == sorted;
    OcclusionPass(a);
    updated := a[..];
  }

  // ---------------------------------------------------------------------
  // Starting and stopping the samplers

  /** What begin() does to a sampler's state. */
  function Begun<T>(s: SamplerState<T>): SamplerState<T>
  {
    s.(updateTask := Scheduled, dumpTask := Scheduled)
  }

  /** What endPerf does to a sampler's state: end() when profiling had started. */
  function Ended<T>(s: SamplerState<T>, started: bool): (r: SamplerState<T>)
    ensures started ==> r.updateTask != Scheduled && r.dumpTask != Scheduled && r.queue == []
    ensures !started ==> r == s
  {
    if started then AfterEnd(s) else s
  }

  /** Restarting throws away what was queued and schedules both tasks afresh. */
  lemma RestartDropsQueue<T>(s: SamplerState<T>)
    ensures Begun(Ended(s, true)).queue == [] && Begun(Ended(s, true)).timer == 0
    ensures Begun(Ended(s, true)).updateTask == Scheduled && Begun(Ended(s, true)).dumpTask == Scheduled
  {
  }

  class Device {
    var layers: seq<Layer>
    var lastLayerInfo: string
    var targetPackage: string
    var targetPackageUid: int
    var hasStartedPerf: bool
    var packageList: seq<string>
    const sdkVersion: int
    const abiList: string
    const cpuCores: int
    const fps: Fps.FpsSampler
    const cpu: Cpu.CpuSampler
    const net: Network.NetworkSampler

    /** The three samplers keep separate state. */
    ghost predicate Valid()
    {
      && fps.base as object != cpu.base as object
      && fps.base as object != net.base as object
      && cpu.base as object != net.base as object
    }

    /**
     * The probes modelled: the SDK level (0 when getprop does not print an
     * int), the ABI list ("Unknown" when getprop prints nothing), the core
     * count, and the first launcher list.
     */
    constructor (sdkProp: string, abiProp: string, cores: int, packageInfo: string, processInfo: string)
      ensures Valid() && fresh(fps) && fresh(cpu) && fresh(net)
      ensures fresh(fps.base) && fresh(cpu.base) && fresh(net.base)
      ensures sdkVersion == SdkVersion(sdkProp) && abiList == AbiList(abiProp) && cpuCores == cores
      ensures layers == [] && lastLayerInfo == "" && targetPackage == "" && targetPackageUid == 0
      ensures !hasStartedPerf
      ensures LauncherPackages(packageInfo, processInfo).Some? ==> packageList == LauncherPackages(packageInfo, processInfo).value
      ensures LauncherPackages(packageInfo, processInfo).None? ==> packageList == []
      ensures !fps.base.executorShutDown && !cpu.base.executorShutDown && !net.base.executorShutDown
      ensures fps.base.State() == SamplerState([], 0, NoTask, NoTask)
      ensures cpu.base.State() == SamplerState([], 0, NoTask, NoTask)
      ensures net.base.State() == SamplerState([], 0, NoTask, NoTask)
      ensures fps.lastFrameTimestamp == 0 && fps.totalTime == 0.0 && fps.numFrames == 0
      ensures net.lastRxBytes == 0.0 && net.lastTxBytes == 0.0
    {
      fps := new Fps.FpsSampler();
      cpu := new Cpu.CpuSampler();
      net := new Network.NetworkSampler();
      sdkVersion := SdkVersion(sdkProp);
      abiList := AbiList(abiProp);
      cpuCores := cores;
      layers := [];
      lastLayerInfo := "";
      targetPackage := "";
      targetPackageUid := 0;
      hasStartedPerf := false;
      packageList := [];
      new;
      UpdatePackageList(packageInfo, processInfo);
    }

    /** Ends every sampler when profiling had started. */
    method EndPerf()
      requires Valid()
      modifies this`hasStartedPerf, fps.base, cpu.base, net.base
      ensures !hasStartedPerf
      ensures fps.base.State() == Ended(old(fps.base.State()), old(hasStartedPerf))
      ensures cpu.base.State() == Ended(old(cpu.base.State()), old(hasStartedPerf))
      ensures net.base.State() == Ended(old(net.base.State()), old(hasStartedPerf))
      ensures fps.base.executorShutDown == old(fps.base.executorShutDown)
      ensures cpu.base.executorShutDown == old(cpu.base.executorShutDown)
      ensures net.base.executorShutDown == old(net.base.executorShutDown)
    {
      if hasStartedPerf {
        fps.base.End();
        cpu.base.End();
        net.base.End();
        hasStartedPerf := false;
      }
    }

    /**
     * Ends a running session first, then begins every sampler; the FPS
     * sampler first clears the latency history of the known layers.
     */
    method StartPerf() returns (clearCommands: seq<string>)
      requires Valid()
      requires !fps.base.executorShutDown && !cpu.base.executorShutDown && !net.base.executorShutDown
      modifies this`hasStartedPerf, fps.base, cpu.base, net.base
      ensures hasStartedPerf
      ensures fps.base.State() == Begun(Ended(old(fps.base.State()), old(hasStartedPerf)))
      ensures cpu.base.State() == Begun(Ended(old(cpu.base.State()), old(hasStartedPerf)))
      ensures net.base.State() == Begun(Ended(old(net.base.State()), old(hasStartedPerf)))
      ensures fps.base.executorShutDown == old(fps.base.executorShutDown)
      ensures cpu.base.executorShutDown == old(cpu.base.executorShutDown)
      ensures net.base.executorShutDown == old(net.base.executorShutDown)
      ensures |clearCommands| == |layers|
      ensures forall i :: 0 <= i < |layers| ==> clearCommands[i] == Fps.ClearCommand(layers[i].layerName)
    {
      EndPerf();
      var names := seq(|layers|, i requires 0 <= i < |layers| reads this => layers[i].layerName);
      clearCommands := fps.Begin(names);
      cpu.base.Begin();
      net.base.Begin();
      hasStartedPerf := true;
    }

    /** Ends profiling and shuts every sampler's executor down for good. */
    method Shutdown()
      requires Valid()
      modifies this`hasStartedPerf, fps.base, cpu.base, net.base
      ensures !hasStartedPerf
      ensures fps.base.State() == Ended(old(fps.base.State()), old(hasStartedPerf))
      ensures cpu.base.State() == Ended(old(cpu.base.State()), old(hasStartedPerf))
      ensures net.base.State() == Ended(old(net.base.State()), old(hasStartedPerf))
      ensures fps.base.executorShutDown && cpu.base.executorShutDown && net.base.executorShutDown
    {
      EndPerf();
      fps.base.Shutdown();
      cpu.base.Shutdown();
      net.base.Shutdown();
    }

    /**
     * Rebuilds the launcher list from `dumpsys package r activity` and
     * `ps -A`; when taking the section throws, the list stays as it was.
     */
    method UpdatePackageList(packageInfo: string, processInfo: string)
      modifies this`packageList
      ensures LauncherPackages(packageInfo, processInfo).Some? ==> packageList == LauncherPackages(packageInfo, processInfo).value
      ensures LauncherPackages(packageInfo, processInfo).None? ==> packageList == old(packageList)
    {
      match MainIntentBlock(packageInfo)
      case NoSection =>
        packageList := [];
      case SectionCrash =>
      case Section(text) =>
        var packages := BuildPackageList(PackageNames(text), processInfo);
        packageList := packages;
    }

    /**
     * The layer update: `listReply` is the server's reply to "list",
     * `listFallback` the dumpsys listing, and `dump` the grep of the
     * compositor dump cut into blocks.
     */
    method UpdateLayerList(listReply: string, listFallback: string, dump: seq<Record>, fuel: nat) returns (changed: bool)
      requires WellFormed(dump)
      modifies this`layers, this`lastLayerInfo
      ensures LayerState(layers, lastLayerInfo, changed)
           == NextLayers(old(layers), old(lastLayerInfo), targetPackage, LayerListInfo(listReply, listFallback), dump, fuel)
    {
      var layerListInfo := listReply;
      if layerListInfo == "" {
        layerListInfo := listFallback;
      }
      if layerListInfo == lastLayerInfo {
        return false;
      }
      var layerListFull := Split(layerListInfo, Literal("\n"));
      var layerList := Seeds(layerListFull, targetPackage);
      if layerList == [] {
        changed := layers != [];
        layers := [];
        return;
      }
      var updated := Rebuild(layerListFull, targetPackage, dump, fuel);
      lastLayerInfo := layerListInfo;
      if SameLayers(layers, updated) {
        return false;
      }
      layers := updated;
      return true;
    }

    /**
     * Ends profiling, switches to the package and reads its uid from the
     * first line of the userId grep, then updates the layers. An index out
     * of bounds in the uid parse escapes before the layer update
     * (`completed` false).
     */
    method SetTargetPackage(packageName: string, uidInfo: string,
                            listReply: string, listFallback: string, dump: seq<Record>, fuel: nat)
      returns (completed: bool)
      requires Valid() && WellFormed(dump)
      modifies this`hasStartedPerf, fps.base, cpu.base, net.base
      modifies this`targetPackage, this`targetPackageUid, this`layers, this`lastLayerInfo
      ensures !hasStartedPerf && targetPackage == packageName
      ensures fps.base.State() == Ended(old(fps.base.State()), old(hasStartedPerf))
      ensures cpu.base.State() == Ended(old(cpu.base.State()), old(hasStartedPerf))
      ensures net.base.State() == Ended(old(net.base.State()), old(hasStartedPerf))
      ensures fps.base.executorShutDown == old(fps.base.executorShutDown)
      ensures cpu.base.executorShutDown == old(cpu.base.executorShutDown)
      ensures net.base.executorShutDown == old(net.base.executorShutDown)
      ensures completed <==> !ParseUid(uidInfo).UidCrash?
      ensures ParseUid(uidInfo).NewUid? ==> targetPackageUid == ParseUid(uidInfo).uid
      ensures !ParseUid(uidInfo).NewUid? ==> targetPackageUid == old(targetPackageUid)
      ensures !completed ==> layers == old(layers) && lastLayerInfo == old(lastLayerInfo)
      ensures completed ==>
        var next := NextLayers(old(layers), old(lastLayerInfo), packageName, LayerListInfo(listReply, listFallback), dump, fuel);
        layers == next.layers && lastLayerInfo == next.lastLayerInfo
    {
      EndPerf();
      completed := Retarget(packageName, uidInfo, listReply, listFallback, dump, fuel);
    }

    /** The part of setTargetPackage after endPerf: the target, its uid, and the layer update. */
    method Retarget(packageName: string, uidInfo: string,
                    listReply: string, listFallback: string, dump: seq<Record>, fuel: nat)
      returns (completed: bool)
      requires WellFormed(dump)
      modifies this`targetPackage, this`targetPackageUid, this`layers, this`lastLayerInfo
      ensures targetPackage == packageName
      ensures completed <==> !ParseUid(uidInfo).UidCrash?
      ensures ParseUid(uidInfo).NewUid? ==> targetPackageUid == ParseUid(uidInfo).uid
      ensures !ParseUid(uidInfo).NewUid? ==> targetPackageUid == old(targetPackageUid)
      ensures !completed ==> layers == old(layers) && lastLayerInfo == old(lastLayerInfo)
      ensures completed ==>
        var next := NextLayers(old(layers), old(lastLayerInfo), packageName, LayerListInfo(listReply, listFallback), dump, fuel);
        layers == next.layers && lastLayerInfo == next.lastLayerInfo
    {
      targetPackage := packageName;
      completed := ReadUid(uidInfo);
      if completed {
        var _ := UpdateLayerList(listReply, listFallback, dump, fuel);
      }
    }

    /** The uid step of setTargetPackage: an int after the first '=' replaces the uid. */
    method ReadUid(uidInfo: string) returns (completed: bool)
      modifies this`targetPackageUid
      ensures completed <==> !ParseUid(uidInfo).UidCrash?
      ensures ParseUid(uidInfo).NewUid? ==> targetPackageUid == ParseUid(uidInfo).uid
      ensures !ParseUid(uidInfo).NewUid? ==> targetPackageUid == old(targetPackageUid)
    {
      var uid := ParseUid(uidInfo);
      if uid.UidCrash? {
        return false;
      }
      if uid.NewUid? {
        targetPackageUid := uid.uid;
      }
      return true;
    }
  }
}
