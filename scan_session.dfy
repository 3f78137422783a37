/**
 * The scan session of MainActivity: the mScanning flag, the delayed stop
 * runnables that scanLeDevice(true) posts, the refresh gesture and the scan
 * callback that feeds the device registry.
 *
 * The radio (startLeScan, stopLeScan), the Handler queue and the refresh
 * widget are outside the model: the calls made to them are recorded as
 * effects, and the moment a posted runnable runs is an event.
 */
module ScanSession {
  import opened DeviceRegistry

  /** Calls the activity makes into the platform. */
  datatype Effect =
    | StartLeScan     // mBluetoothAdapter.startLeScan
    | StopLeScan      // mBluetoothAdapter.stopLeScan
    | RefreshingOff   // swipe.setRefreshing(false): "scan ended" for the user
    | DataSetChanged  // notifyDataSetChanged on the list adapter

  /** Everything that can happen to the session. */
  datatype Event =
    | ScanOn                // scanLeDevice(true)
    | ScanOff               // scanLeDevice(false)
    | TimeoutRuns           // one posted stop runnable runs, SCAN_PERIOD later
    | Refresh               // onRefresh from the swipe gesture
    | Discovered(device: Device)  // onLeScan, handed to the UI thread

  /** The session's state: mScanning, the number of stop runnables posted and
      not yet run, the device list, and the calls made so far. */
  datatype Session = Session(scanning: bool, armed: nat, devices: seq<Device>, effects: seq<Effect>)

  /** SCAN_PERIOD in milliseconds (two minutes, not the ten seconds its
      comment mentions); time itself is not modelled. */
  const SCAN_PERIOD: nat := 120000

  function Initial(): Session
  {
    Session(false, 0, [], [])
  }

  /** scanLeDevice(true): post a new stop runnable (earlier ones stay
      posted), set mScanning, start the radio scan. */
  function Enabled(s: Session): Session
  {
    s.(armed := s.armed + 1, scanning := true, effects := s.effects + [StartLeScan])
  }

  /** scanLeDevice(false) and the body of the stop runnable: clear mScanning,
      stop the radio scan, end the refresh indicator. */
  function Stopped(s: Session): Session
  {
    s.(scanning := false, effects := s.effects + [StopLeScan, RefreshingOff])
  }

  function Step(s: Session, e: Event): (t: Session)
    requires e.TimeoutRuns? ==> s.armed > 0
    ensures !(e.Refresh? || e.Discovered?) ==> t.devices == s.devices
    ensures Distinct(s.devices) ==> Distinct(t.devices)
    ensures t.armed + (if e.TimeoutRuns? then 1 else 0) == s.armed + (if e.ScanOn? || e.Refresh? then 1 else 0)
    ensures |s.effects| <= |t.effects| && t.effects[..|s.effects|] == s.effects
  {
    match e
    case ScanOn => Enabled(s)
    case ScanOff => Stopped(s)
    case TimeoutRuns => Stopped(s.(armed := s.armed - 1))
    case Refresh => Enabled(s.(devices := []))
    case Discovered(d) => s.(devices := Added(s.devices, d), effects := s.effects + [DataSetChanged])
  }

  /** A trace can happen from `s` when every stop runnable that runs was posted. */
  predicate Feasible(s: Session, trace: seq<Event>)
    decreases |trace|
  {
    trace == [] || ((trace[0].TimeoutRuns? ==> s.armed > 0) && Feasible(Step(s, trace[0]), trace[1..]))
  }

  function Run(s: Session, trace: seq<Event>): Session
    requires Feasible(s, trace)
    decreases |trace|
  {
    if trace == [] then s else Run(Step(s, trace[0]), trace[1..])
  }

  /** Number of events that post a stop runnable. */
  function Arms(trace: seq<Event>): nat
  {
    if trace == [] then 0 else (if trace[0].ScanOn? || trace[0].Refresh? then 1 else 0) + Arms(trace[1..])
  }

  /** Number of stop runnables that run. */
  function Fires(trace: seq<Event>): nat
  {
    if trace == [] then 0 else (if trace[0].TimeoutRuns? then 1 else 0) + Fires(trace[1..])
  }

  /** Reference value of mScanning: set by the last event that writes it,
      unchanged by discoveries. */
  function LastFlag(initial: bool, trace: seq<Event>): bool
  {
    if trace == [] then initial
    else match trace[|trace| - 1]
      case ScanOn => true
      case Refresh => true
      case ScanOff => false
      case TimeoutRuns => false
      case Discovered(_) => LastFlag(initial, trace[..|trace| - 1])
  }

  /** One discovery event per reported device. */
  function Discoveries(ds: seq<Device>): (t: seq<Event>)
    ensures |t| == |ds|
  {
    if ds == [] then [] else [Discovered(ds[0])] + Discoveries(ds[1..])
  }

  /** Running a trace extended by one event is one more step. */
  lemma {:induction false} RunSnoc(s: Session, trace: seq<Event>, e: Event)
    ensures Feasible(s, trace + [e]) <==> Feasible(s, trace) && (e.TimeoutRuns? ==> Run(s, trace).armed > 0)
    ensures Feasible(s, trace + [e]) ==> Feasible(s, trace) && Run(s, trace + [e]) == Step(Run(s, trace), e)
    decreases |trace|
  {
    if trace == [] {
      assert trace + [e] == [e];
    } else {
      assert (trace + [e])[0] == trace[0];
      assert (trace + [e])[1..] == trace[1..] + [e];
      if trace[0].TimeoutRuns? ==> s.armed > 0 {
        RunSnoc(Step(s, trace[0]), trace[1..], e);
      }
    }
  }

  /** No sequence of events ever puts a device in the list twice. */
  lemma {:induction false} RunKeepsDistinct(s: Session, trace: seq<Event>)
    requires Feasible(s, trace) && Distinct(s.devices)
    ensures Distinct(Run(s, trace).devices)
    decreases |trace|
  {
    if trace != [] {
      RunKeepsDistinct(Step(s, trace[0]), trace[1..]);
    }
  }

  /** Stop runnables are never cancelled: every one posted is pending until it
      runs, so the pending count is the posted count minus the runs. */
  lemma {:induction false} RunArmed(s: Session, trace: seq<Event>)
    requires Feasible(s, trace)
    ensures Run(s, trace).armed + Fires(trace) == s.armed + Arms(trace)
    decreases |trace|
  {
    if trace != [] {
      RunArmed(Step(s, trace[0]), trace[1..]);
    }
  }

  /** From a fresh activity, no more stop runnables run than were posted. */
  lemma FiresAtMostArms(trace: seq<Event>)
    requires Feasible(Initial(), trace)
    ensures Fires(trace) <= Arms(trace)
  {
    RunArmed(Initial(), trace);
  }

  /** mScanning is true exactly when the last event writing it started a
      scan, whichever runnable or stop came before. */
  lemma {:induction false} RunScanningIsLastFlag(s: Session, trace: seq<Event>)
    requires Feasible(s, trace)
    ensures Run(s, trace).scanning == LastFlag(s.scanning, trace)
    decreases |trace|
  {
    if trace != [] {
      var earlier, last := trace[..|trace| - 1], trace[|trace| - 1];
      assert trace == earlier + [last];
      RunSnoc(s, earlier, last);
      RunScanningIsLastFlag(s, earlier);
    }
  }

  /** Discoveries only feed addDevice: the flag and the pending runnables are
      untouched and the list becomes Discover of the reports. */
  lemma {:induction false} DiscoveriesOnlyAdd(s: Session, ds: seq<Device>)
    ensures Feasible(s, Discoveries(ds))
    ensures Run(s, Discoveries(ds)).devices == Discover(s.devices, ds)
    ensures Run(s, Discoveries(ds)).scanning == s.scanning
    ensures Run(s, Discoveries(ds)).armed == s.armed
    decreases |ds|
  {
    if ds != [] {
      var t := Discoveries(ds);
      assert t[0] == Discovered(ds[0]) && t[1..] == Discoveries(ds[1..]);
      DiscoveriesOnlyAdd(Step(s, Discovered(ds[0])), ds[1..]);
    }
  }

  /** A refresh empties the list and starts a scan; the reports that follow
      build the list in first-seen order. */
  lemma RefreshThenDiscover(s: Session, ds: seq<Device>)
    ensures Feasible(s, [Refresh] + Discoveries(ds))
    ensures Run(s, [Refresh] + Discoveries(ds)).devices == FirstSeen(ds)
    ensures Run(s, [Refresh] + Discoveries(ds)).scanning
    ensures Run(s, [Refresh] + Discoveries(ds)).armed == s.armed + 1
  {
    var t := [Refresh] + Discoveries(ds);
    assert t[0] == Refresh && t[1..] == Discoveries(ds);
    DiscoveriesOnlyAdd(Step(s, Refresh), ds);
    DiscoverIsFirstSeen(ds);
  }

  /** A stop runnable posted by an earlier scan still runs after a refresh:
      it clears mScanning and stops the radio although the new scan's own
      runnable is still pending. */
  lemma StaleTimeoutEndsNewScan(s: Session)
    requires s.armed > 0
    ensures Feasible(s, [Refresh, TimeoutRuns])
    ensures !Run(s, [Refresh, TimeoutRuns]).scanning
    ensures Run(s, [Refresh, TimeoutRuns]).armed == s.armed
    ensures Run(s, [Refresh, TimeoutRuns]).devices == []
  {
  }

  /** Two scans started back to back end twice: each posted runnable stops
      the radio and ends the refresh indicator. */
  lemma TwoScansEndTwice()
    ensures Feasible(Initial(), [ScanOn, ScanOn, TimeoutRuns, TimeoutRuns])
    ensures Run(Initial(), [ScanOn, ScanOn, TimeoutRuns, TimeoutRuns]).effects
         == [StartLeScan, StartLeScan, StopLeScan, RefreshingOff, StopLeScan, RefreshingOff]
  {
  }

  /** The activity's scan state: the fields of MainActivity that the scan
      callbacks update. */
  class ScanController {
    /** mScanning */
    var scanning: bool
    /** Stop runnables posted through a Handler and not yet run. */
    var armed: nat
    /** Calls made to the radio and the widgets, oldest first. */
    var effects: seq<Effect>
    /** mLeDeviceListAdapter */
    const adapter: LeDeviceListAdapter

    ghost predicate Valid()
      reads this, adapter
    {
      adapter.Valid()
    }

    ghost function State(): Session
      reads this, adapter
    {
      Session(scanning, armed, adapter.devices, effects)
    }

    /** onCreate: a new empty adapter; a scan starts at once only when the
        radio is already enabled (otherwise the user is asked to enable it). */
    constructor (bluetoothEnabled: bool)
      ensures Valid() && fresh(adapter)
      ensures State() == if bluetoothEnabled then Step(Initial(), ScanOn) else Initial()
    {
      adapter := new LeDeviceListAdapter();
      scanning, armed, effects := false, 0, [];
      new;
      if bluetoothEnabled {
        ScanLeDevice(true);
      }
    }

    /** scanLeDevice */
    method ScanLeDevice(enable: bool)
      requires Valid()
      modifies this
      ensures Valid()
      ensures scanning == enable && adapter.devices == old(adapter.devices)
      ensures State() == Step(old(State()), if enable then ScanOn else ScanOff)
    {
      if enable {
        armed := armed + 1;
        scanning := true;
        effects := effects + [StartLeScan];
      } else {
        scanning := false;
        effects := effects + [StopLeScan, RefreshingOff];
      }
    }

    /** The body of a stop runnable posted by an earlier scanLeDevice(true). */
    method ScanTimeout()
      requires Valid() && armed > 0
      modifies this
      ensures Valid()
      ensures !scanning && armed == old(armed) - 1 && adapter.devices == old(adapter.devices)
      ensures State() == Step(old(State()), TimeoutRuns)
    {
      armed := armed - 1;
      scanning := false;
      effects := effects + [StopLeScan, RefreshingOff];
    }

    /** onRefresh: clear the list, then start a new scan. */
    method OnRefresh()
      requires Valid()
      modifies this, adapter
      ensures Valid()
      ensures scanning && adapter.devices == [] && armed == old(armed) + 1
      ensures State() == Step(old(State()), Refresh)
    {
      adapter.Clear();
      ScanLeDevice(true);
    }

    /** onLeScan, once handed to the UI thread: add the device and notify. */
    method OnLeScan(d: Device)
      requires Valid()
      modifies this, adapter
      ensures Valid()
      ensures scanning == old(scanning) && armed == old(armed)
      ensures State() == Step(old(State()), Discovered(d))
    {
      adapter.AddDevice(d);
      effects := effects + [DataSetChanged];
    }
  }
}
