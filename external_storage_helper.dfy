/**
 * `ExternalStorageHelper` (`ServiceTest.Droid/Services/ExternalStorageHelper.cs`)
 * with the `MediaState` enumeration of `IExternalStorageHelper.cs`. The
 * platform's storage-state query is the `probe` input of each call: the
 * state string Android reports for the path, or `None` when the query
 * throws. The `MEDIA_*` values are those of `android.os.Environment`.
 */
module ExternalStorage {
  import opened Wrappers

  datatype MediaState =
    | Unknown
    | Removed
    | Unmounted
    | DiskCheckInProgress
    | NoFilesystem
    | Mounted
    | ReadOnly
    | Shared
    | BadRemoval
    | Unmountable

  const MediaMounted: string := "mounted"
  const MediaMountedReadOnly: string := "mounted_ro"
  const MediaRemoved: string := "removed"
  const MediaUnmounted: string := "unmounted"
  const MediaChecking: string := "checking"
  const MediaNofs: string := "nofs"
  const MediaShared: string := "shared"
  const MediaBadRemoval: string := "bad_removal"
  const MediaUnmountable: string := "unmountable"

  /** The state string each media state is reported under (none for Unknown). */
  function StateName(m: MediaState): Option<string> {
    match m
    case Unknown => None
    case Removed => Some(MediaRemoved)
    case Unmounted => Some(MediaUnmounted)
    case DiskCheckInProgress => Some(MediaChecking)
    case NoFilesystem => Some(MediaNofs)
    case Mounted => Some(MediaMounted)
    case ReadOnly => Some(MediaMountedReadOnly)
    case Shared => Some(MediaShared)
    case BadRemoval => Some(MediaBadRemoval)
    case Unmountable => Some(MediaUnmountable)
  }

  /** What a successful `CheckState` records for a state string. */
  datatype Check = Check(available: bool, writeable: bool, state: MediaState)

  /**
   * The classification of `CheckState`: mounted is available and
   * writeable, mounted read-only is available only, every other state is
   * neither, and a state string the helper does not list is Unknown.
   */
  function Classify(state: string): (c: Check)
    ensures c.available <==> state == MediaMounted || state == MediaMountedReadOnly
    ensures c.writeable <==> state == MediaMounted
  {
    if state == MediaMounted then Check(true, true, Mounted)
    else if state == MediaMountedReadOnly then Check(true, false, ReadOnly)
    else
      var m :=
        if state == MediaRemoved then Removed
        else if state == MediaUnmounted then Unmounted
        else if state == MediaChecking then DiskCheckInProgress
        else if state == MediaNofs then NoFilesystem
        else if state == MediaShared then Shared
        else if state == MediaBadRemoval then BadRemoval
        else if state == MediaUnmountable then Unmountable
        else Unknown;
      Check(false, false, m)
  }

  /** Each listed state string is classified as its own media state, so no two share one. */
  lemma ClassifyStateName(m: MediaState)
    requires m != Unknown
    ensures Classify(StateName(m).value).state == m
  {
  }

  /** A state string that names no media state is Unknown, neither available nor writeable. */
  lemma ClassifyUnlisted(state: string)
    requires forall m :: StateName(m) != Some(state)
    ensures Classify(state) == Check(false, false, Unknown)
  {
    assert StateName(Mounted) != Some(state);
    assert StateName(ReadOnly) != Some(state);
    assert StateName(Removed) != Some(state);
    assert StateName(Unmounted) != Some(state);
    assert StateName(DiskCheckInProgress) != Some(state);
    assert StateName(NoFilesystem) != Some(state);
    assert StateName(Shared) != Some(state);
    assert StateName(BadRemoval) != Some(state);
    assert StateName(Unmountable) != Some(state);
  }

  /** The classified state is reported under the string it came from. */
  lemma ClassifyNamesState(state: string)
    ensures Classify(state).state != Unknown ==> StateName(Classify(state).state) == Some(state)
  {
  }

  class ExternalStorageHelper {
    var available: bool
    var writeable: bool
    var currentState: MediaState

    constructor ()
      ensures !available && !writeable && currentState == Unknown
    {
      available := false;
      writeable := false;
      currentState := Unknown;
    }

    /** The helper's fields, as one value. */
    function Fields(): Check
      reads this
    {
      Check(available, writeable, currentState)
    }

    /**
     * `CheckState`: record the classification of the reported state; when
     * the platform query throws, the exception is logged and swallowed and
     * the fields keep their previous values.
     */
    method CheckState(probe: Option<string>)
      modifies this
      ensures probe.Some? ==> Fields() == Classify(probe.value)
      ensures probe.None? ==> Fields() == old(Fields())
    {
      if probe.None? {
        return;
      }
      var state := probe.value;
      if state == MediaMounted {
        available, writeable := true, true;
        currentState := Mounted;
        return;
      }
      if state == MediaMountedReadOnly {
        available := true;
        writeable := false;
        currentState := ReadOnly;
        return;
      }
      if state == MediaRemoved { currentState := Removed; }
      else if state == MediaUnmounted { currentState := Unmounted; }
      else if state == MediaChecking { currentState := DiskCheckInProgress; }
      else if state == MediaNofs { currentState := NoFilesystem; }
      else if state == MediaShared { currentState := Shared; }
      else if state == MediaBadRemoval { currentState := BadRemoval; }
      else if state == MediaUnmountable { currentState := Unmountable; }
      else { currentState := Unknown; }
      available, writeable := false, false;
    }

    /** `IsAvailable`: check, then report `available`. */
    method IsAvailable(probe: Option<string>) returns (r: bool)
      modifies this
      ensures Fields() == if probe.Some? then Classify(probe.value) else old(Fields())
      ensures r == available
      ensures probe.Some? ==> (r <==> probe.value == MediaMounted || probe.value == MediaMountedReadOnly)
    {
      CheckState(probe);
      r := available;
    }

    /** `IsWriteable`: check, then report `writeable`. */
    method IsWriteable(probe: Option<string>) returns (r: bool)
      modifies this
      ensures Fields() == if probe.Some? then Classify(probe.value) else old(Fields())
      ensures r == writeable
      ensures probe.Some? ==> (r <==> probe.value == MediaMounted)
    {
      CheckState(probe);
      r := writeable;
    }

    /** `IsAvailableAndWriteable`: check, then report both flags together. */
    method IsAvailableAndWriteable(probe: Option<string>) returns (r: bool)
      modifies this
      ensures Fields() == if probe.Some? then Classify(probe.value) else old(Fields())
      ensures r == (available && writeable)
      ensures probe.Some? ==> (r <==> probe.value == MediaMounted)
    {
      CheckState(probe);
      r := available && writeable;
    }

    /** `GetCurrentState`: check, then report the recorded state. */
    method GetCurrentState(probe: Option<string>) returns (r: MediaState)
      modifies this
      ensures Fields() == if probe.Some? then Classify(probe.value) else old(Fields())
      ensures r == currentState
      ensures probe.Some? ==> r == Classify(probe.value).state
    {
      CheckState(probe);
      r := currentState;
    }
  }
}
