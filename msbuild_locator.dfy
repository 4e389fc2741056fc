// `MSBuildLocator`: registers at most one MSBuild instance at a time, points `MSBUILD_EXE_PATH`
// at its executable, and lists the instances its providers find.
module MSBuildLocator {
  import opened Wrappers
  import opened Text
  import opened Paths

  /** What the locator reads of an `MSBuildInstance`. */
  datatype MSBuildInstance = MSBuildInstance(name: string, msbuildPath: string, setMSBuildExePathVariable: bool,
                                             propertyOverrides: map<string, string>)

  const ExeFileName := "MSBuild.exe"
  const DllFileName := "MSBuild.dll"

  /** The value chosen for `MSBUILD_EXE_PATH`: the `.exe` when it exists, else the `.dll` when it exists, else none. */
  function ExePathCandidate(msbuildPath: string, fileExists: string -> bool): (r: Option<string>)
    ensures fileExists(Combine(msbuildPath, ExeFileName)) ==> r == Some(Combine(msbuildPath, ExeFileName))
    ensures !fileExists(Combine(msbuildPath, ExeFileName)) && fileExists(Combine(msbuildPath, DllFileName)) ==>
      r == Some(Combine(msbuildPath, DllFileName))
    ensures r.None? <==> !fileExists(Combine(msbuildPath, ExeFileName)) && !fileExists(Combine(msbuildPath, DllFileName))
  {
    var exe := Combine(msbuildPath, ExeFileName);
    var dll := Combine(msbuildPath, DllFileName);
    if fileExists(exe) then Some(exe) else if fileExists(dll) then Some(dll) else None
  }

  /** A found candidate is never empty, so the variable is set whenever a file was found. */
  lemma CandidateIsNonEmpty(msbuildPath: string, fileExists: string -> bool)
    ensures ExePathCandidate(msbuildPath, fileExists).Some? ==> !IsNullOrEmpty(ExePathCandidate(msbuildPath, fileExists))
  {
    assert ExeFileName != "" && DllFileName != "";
  }

  /** The register-once rule, the checks in source order: an existing registration first, then a null instance. */
  function RegisterOutcome(registered: Option<MSBuildInstance>, instance: Option<MSBuildInstance>): (r: Outcome)
    ensures registered.Some? ==> r == Raised(InvalidOperationException)
    ensures registered.None? && instance.None? ==> r == Raised(ArgumentNullException)
    ensures r == Completed <==> registered.None? && instance.Some?
  {
    if registered.Some? then Raised(InvalidOperationException)
    else if instance.None? then Raised(ArgumentNullException)
    else Completed
  }

  /** With an instance registered, every further registration fails, a null one included. */
  lemma RegisterOnce(registered: MSBuildInstance, instance: Option<MSBuildInstance>)
    ensures RegisterOutcome(Some(registered), instance) == Raised(InvalidOperationException)
    ensures RegisterOutcome(None, instance).Completed? <==> instance.Some?
  {
  }

  /** The non-null instances of one provider, in its order. */
  function NonNull(instances: seq<Option<MSBuildInstance>>): (r: seq<MSBuildInstance>)
    ensures |r| <= |instances|
    ensures forall x :: x in r <==> Some(x) in instances
  {
    if instances == [] then []
    else
      var init := instances[..|instances| - 1];
      var last := instances[|instances| - 1];
      assert instances == init + [last];
      NonNull(init) + (if last.Some? then [last.value] else [])
  }

  /** The instances as the non-null entries they came from. */
  function Present(r: seq<MSBuildInstance>): (p: seq<Option<MSBuildInstance>>)
    ensures |p| == |r| && forall i :: 0 <= i < |r| ==> p[i] == Some(r[i])
  {
    seq(|r|, i requires 0 <= i < |r| => Some(r[i]))
  }

  /** `NonNull` keeps the non-null instances in their order. */
  lemma {:induction false} NonNullKeepsOrder(instances: seq<Option<MSBuildInstance>>)
    ensures Subsequence(Present(NonNull(instances)), instances)
    decreases |instances|
  {
    if instances != [] {
      var init := instances[..|instances| - 1];
      var last := instances[|instances| - 1];
      assert instances == init + [last];
      NonNullKeepsOrder(init);
      var kept := NonNull(init);
      SubsequenceAppend(Present(kept), init, last);
      if last.Some? {
        assert NonNull(instances) == kept + [last.value];
        assert Present(kept + [last.value]) == Present(kept) + [last];
      } else {
        assert NonNull(instances) == kept;
      }
    }
  }

  /** `NonNull` keeps every non-null instance as often as it occurs, and drops only the nulls. */
  lemma {:induction false} NonNullCounts(instances: seq<Option<MSBuildInstance>>)
    ensures forall x :: multiset(NonNull(instances))[x] == multiset(instances)[Some(x)]
    decreases |instances|
  {
    if instances != [] {
      var init := instances[..|instances| - 1];
      var last := instances[|instances| - 1];
      assert instances == init + [last];
      assert multiset(instances) == multiset(init) + multiset{last};
      NonNullCounts(init);
      var kept := NonNull(init);
      if last.Some? {
        assert NonNull(instances) == kept + [last.value];
        assert multiset(NonNull(instances)) == multiset(kept) + multiset{last.value};
      } else {
        assert NonNull(instances) == kept;
      }
    }
  }

  /** The instances of every provider, provider after provider, nulls dropped. */
  function AllInstances(found: seq<seq<Option<MSBuildInstance>>>): (r: seq<MSBuildInstance>)
  {
    if found == [] then [] else AllInstances(found[..|found| - 1]) + NonNull(found[|found| - 1])
  }

  /** An instance is listed exactly when some provider found it. */
  lemma {:induction false} AllInstancesFound(found: seq<seq<Option<MSBuildInstance>>>)
    ensures forall x :: x in AllInstances(found) <==> exists i :: 0 <= i < |found| && Some(x) in found[i]
    decreases |found|
  {
    if found != [] {
      var init := found[..|found| - 1];
      AllInstancesFound(init);
      forall x
        ensures x in AllInstances(found) <==> exists i :: 0 <= i < |found| && Some(x) in found[i]
      {
        if exists i :: 0 <= i < |found| && Some(x) in found[i] {
          var i :| 0 <= i < |found| && Some(x) in found[i];
          if i < |init| { assert init[i] == found[i]; }
        }
        if exists i :: 0 <= i < |init| && Some(x) in init[i] {
          var i :| 0 <= i < |init| && Some(x) in init[i];
          assert found[i] == init[i];
        }
      }
    }
  }

  /** Provider order is preserved: the instances of a group of providers come before those of a later group. */
  lemma {:induction false} AllInstancesOfAppend(xs: seq<seq<Option<MSBuildInstance>>>, ys: seq<seq<Option<MSBuildInstance>>>)
    ensures AllInstances(xs + ys) == AllInstances(xs) + AllInstances(ys)
    decreases |ys|
  {
    if ys == [] {
      assert xs + ys == xs;
    } else {
      var zs := xs + ys;
      var init, last := ys[..|ys| - 1], ys[|ys| - 1];
      assert zs[..|zs| - 1] == xs + init && zs[|zs| - 1] == last;
      assert AllInstances(zs) == AllInstances(xs + init) + NonNull(last);
      assert AllInstances(ys) == AllInstances(init) + NonNull(last);
      AllInstancesOfAppend(xs, init);
      assert AllInstances(xs) + AllInstances(init) + NonNull(last) == AllInstances(xs) + (AllInstances(init) + NonNull(last));
    }
  }

  /** The locator's state: the registered instance, the value given to `MSBUILD_EXE_PATH`, the paths handed to Microsoft.Build.Locator. */
  class Locator {
    var registeredInstance: Option<MSBuildInstance>
    var msbuildExePathVariable: Option<string>
    var registeredPaths: seq<string>

    constructor ()
      ensures registeredInstance == None && msbuildExePathVariable == None && registeredPaths == []
    {
      registeredInstance := None;
      msbuildExePathVariable := None;
      registeredPaths := [];
    }

    /**
     * `RegisterInstance(instance)`. `fileExists` stands for `File.Exists`; `canRegister` for
     * `MicrosoftBuildLocator.CanRegister`. A failed call changes nothing.
     */
    method RegisterInstance(instance: Option<MSBuildInstance>, fileExists: string -> bool, canRegister: bool)
      returns (r: Outcome)
      modifies this
      ensures r == RegisterOutcome(old(registeredInstance), instance)
      ensures r.Raised? ==> unchanged(this)
      ensures r.Completed? ==> (registeredInstance == instance
        && msbuildExePathVariable == (if instance.value.setMSBuildExePathVariable
             && ExePathCandidate(instance.value.msbuildPath, fileExists).Some?
           then ExePathCandidate(instance.value.msbuildPath, fileExists) else old(msbuildExePathVariable))
        && registeredPaths == old(registeredPaths) + (if canRegister then [instance.value.msbuildPath] else []))
    {
      if registeredInstance.Some? {
        return Raised(InvalidOperationException);
      }
      if instance.None? {
        return Raised(ArgumentNullException);
      }
      registeredInstance := instance;
      var registered := instance.value;
      if registered.setMSBuildExePathVariable {
        var msbuildPath := ExePathCandidate(registered.msbuildPath, fileExists);
        CandidateIsNonEmpty(registered.msbuildPath, fileExists);
        if !IsNullOrEmpty(msbuildPath) {
          msbuildExePathVariable := msbuildPath;
        }
      }
      if canRegister {
        registeredPaths := registeredPaths + [registered.msbuildPath];
      }
      return Completed;
    }

    /** `DisposeCore`: the registration is dropped, so another instance may be registered. */
    method DisposeCore()
      modifies this
      ensures registeredInstance == None
      ensures forall i :: RegisterOutcome(registeredInstance, i).Completed? <==> i.Some?
      ensures msbuildExePathVariable == old(msbuildExePathVariable) && registeredPaths == old(registeredPaths)
    {
      if registeredInstance.Some? {
        registeredInstance := None;
      }
    }

    /** `GetInstances`: each provider's instances in provider order, nulls dropped. */
    method GetInstances(found: seq<seq<Option<MSBuildInstance>>>) returns (result: seq<MSBuildInstance>)
      ensures result == AllInstances(found)
    {
      result := [];
      var i := 0;
      while i < |found|
        invariant 0 <= i <= |found|
        invariant result == AllInstances(found[..i])
      {
        var instances := found[i];
        var j := 0;
        ghost var before := result;
        while j < |instances|
          invariant 0 <= j <= |instances|
          invariant result == before + NonNull(instances[..j])
        {
          assert instances[..j + 1][..j] == instances[..j];
          if instances[j].Some? {
            result := result + [instances[j].value];
          }
          j := j + 1;
        }
        assert instances[..j] == instances;
        assert found[..i + 1][..i] == found[..i];
        i := i + 1;
      }
      assert found[..i] == found;
    }
  }
}
