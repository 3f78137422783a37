/**
 * The discovered-device registry: the list behind LeDeviceListAdapter.
 * It keeps every device seen during scanning once, in the order in which
 * each was first reported.
 */
module DeviceRegistry {
  import opened Wrappers

  /** A discovered peripheral. Its identity is its hardware address, which is
      what BluetoothDevice equality (and so ArrayList.contains) compares. */
  datatype Device = Device(address: string)

  /** ArrayList.get on a bad position throws IndexOutOfBoundsException. */
  datatype IndexError = IndexOutOfBounds(index: int, size: nat)

  /** No device appears twice in the list. */
  predicate Distinct(s: seq<Device>)
  {
    forall i, j :: 0 <= i < j < |s| ==> s[i] != s[j]
  }

  /** The set of devices a list holds. */
  function Members(s: seq<Device>): set<Device>
  {
    set x | x in s
  }

  /** What addDevice does to the list: append the device when it is absent,
      keep the list as it was when the device is already there. */
  function Added(s: seq<Device>, d: Device): (r: seq<Device>)
    ensures |r| == if d in s then |s| else |s| + 1
    ensures r[..|s|] == s
    ensures forall x :: x in r <==> x in s || x == d
    ensures Distinct(s) ==> Distinct(r)
  {
    if d in s then s else s + [d]
  }

  /** The list after the discovery events `events` were delivered, in order,
      to a list that held `s`. */
  function Discover(s: seq<Device>, events: seq<Device>): seq<Device>
    decreases |events|
  {
    if events == [] then s else Discover(Added(s, events[0]), events[1..])
  }

  /** Reference definition of first-seen order, independent of addDevice:
      keep each event whose device did not occur earlier in the stream. */
  function FirstSeen(events: seq<Device>): seq<Device>
  {
    if events == [] then []
    else
      var earlier, last := events[..|events| - 1], events[|events| - 1];
      FirstSeen(earlier) + (if last in earlier then [] else [last])
  }

  /** Delivering one more event appends its effect at the end. */
  lemma {:induction false} DiscoverSnoc(s: seq<Device>, events: seq<Device>, d: Device)
    ensures Discover(s, events + [d]) == Added(Discover(s, events), d)
    decreases |events|
  {
    if events == [] {
      assert events + [d] == [d];
    } else {
      assert (events + [d])[0] == events[0];
      assert (events + [d])[1..] == events[1..] + [d];
      DiscoverSnoc(Added(s, events[0]), events[1..], d);
    }
  }

  /** Whatever the discovery events, the list never holds a device twice. */
  lemma {:induction false} DiscoverKeepsDistinct(s: seq<Device>, events: seq<Device>)
    requires Distinct(s)
    ensures Distinct(Discover(s, events))
    decreases |events|
  {
    if events != [] {
      DiscoverKeepsDistinct(Added(s, events[0]), events[1..]);
    }
  }

  /** A device is listed exactly when it was listed before or was reported. */
  lemma {:induction false} DiscoverMembers(s: seq<Device>, events: seq<Device>)
    ensures forall x :: x in Discover(s, events) <==> x in s || x in events
    decreases |events|
  {
    if events != [] {
      DiscoverMembers(Added(s, events[0]), events[1..]);
      assert forall x :: x in events <==> x == events[0] || x in events[1..];
    }
  }

  /** Discoveries only append: every earlier entry keeps its position. */
  lemma {:induction false} DiscoverOnlyAppends(s: seq<Device>, events: seq<Device>)
    ensures |s| <= |Discover(s, events)|
    ensures Discover(s, events)[..|s|] == s
    decreases |events|
  {
    if events != [] {
      var s' := Added(s, events[0]);
      DiscoverOnlyAppends(s', events[1..]);
      assert Discover(s, events)[..|s|] == Discover(s', events[1..])[..|s'|][..|s|];
    }
  }

  /** Reports of devices that are all listed already leave the list unchanged. */
  lemma {:induction false} DiscoverKnown(s: seq<Device>, events: seq<Device>)
    requires forall x :: x in events ==> x in s
    ensures Discover(s, events) == s
    decreases |events|
  {
    if events != [] {
      assert events[0] in events;
      assert forall x :: x in events[1..] ==> x in events;
      DiscoverKnown(s, events[1..]);
    }
  }

  /** Re-delivering the same reports is a no-op: the registry is idempotent. */
  lemma DiscoverIdempotent(s: seq<Device>, events: seq<Device>)
    ensures Discover(Discover(s, events), events) == Discover(s, events)
  {
    DiscoverMembers(s, events);
    DiscoverKnown(Discover(s, events), events);
  }

  /** The reference order contains exactly the reported devices. */
  lemma {:induction false} FirstSeenMembers(events: seq<Device>)
    ensures forall x :: x in FirstSeen(events) <==> x in events
    decreases |events|
  {
    if events != [] {
      var earlier := events[..|events| - 1];
      FirstSeenMembers(earlier);
      assert events == earlier + [events[|events| - 1]];
    }
  }

  /** Starting from an empty list, the registry is exactly the first-seen
      order of the discovery stream. */
  lemma {:induction false} DiscoverIsFirstSeen(events: seq<Device>)
    ensures Discover([], events) == FirstSeen(events)
    decreases |events|
  {
    if events != [] {
      var earlier, last := events[..|events| - 1], events[|events| - 1];
      assert events == earlier + [last];
      DiscoverIsFirstSeen(earlier);
      DiscoverSnoc([], earlier, last);
      FirstSeenMembers(earlier);
    }
  }

  /** A list without repetitions is as long as the set of devices it holds. */
  lemma {:induction false} DistinctCardinality(s: seq<Device>)
    requires Distinct(s)
    ensures |Members(s)| == |s|
    decreases |s|
  {
    if s != [] {
      var rest := s[1..];
      assert Distinct(rest) by {
        forall i, j | 0 <= i < j < |rest| ensures rest[i] != rest[j] {
          assert rest[i] == s[i + 1] && rest[j] == s[j + 1];
        }
      }
      DistinctCardinality(rest);
      assert s[0] !in rest by {
        forall k | 0 <= k < |rest| ensures rest[k] != s[0] {
          assert rest[k] == s[k + 1];
        }
      }
      assert Members(s) == {s[0]} + Members(rest);
    }
  }

  /** After a scan from an empty list, the count is the number of distinct
      devices reported; repeated reports add nothing. */
  lemma CountIsDistinctReports(events: seq<Device>)
    ensures |Discover([], events)| == |Members(events)|
  {
    DiscoverKeepsDistinct([], events);
    DistinctCardinality(Discover([], events));
    DiscoverMembers([], events);
    assert Members(Discover([], events)) == Members(events);
  }

  /** Reports A, B, A, C give the list [A, B, C]. */
  lemma DuplicateReportScenario(a: Device, b: Device, c: Device)
    requires a != b && b != c && a != c
    ensures Discover([], [a, b, a, c]) == [a, b, c]
  {
    assert [a, b, a, c][1..] == [b, a, c];
    assert [b, a, c][1..] == [a, c];
    assert [a, c][1..] == [c];
    calc {
      Discover([], [a, b, a, c]);
      Discover([a], [b, a, c]);
      { assert b !in [a] && [a] + [b] == [a, b]; }
      Discover([a, b], [a, c]);
      Discover([a, b], [c]);
      { assert c !in [a, b] && [a, b] + [c] == [a, b, c]; }
      Discover([a, b, c], []);
    }
  }

  /** LeDeviceListAdapter: the registry object the list view reads. */
  class LeDeviceListAdapter {
    /** mLeDevices */
    var devices: seq<Device>

    ghost predicate Valid()
      reads this
    {
      Distinct(devices)
    }

    /** A new adapter starts with an empty list. */
    constructor ()
      ensures Valid() && devices == []
    {
      devices := [];
    }

    /** addDevice: insert the device only if it is not already listed. */
    method AddDevice(d: Device)
      requires Valid()
      modifies this
      ensures Valid()
      ensures d in old(devices) ==> devices == old(devices)
      ensures d !in old(devices) ==> devices == old(devices) + [d]
      ensures devices == Added(old(devices), d)
    {
      if d !in devices {
        devices := devices + [d];
      }
    }

    /** clear: forget every device. */
    method Clear()
      requires Valid()
      modifies this
      ensures Valid() && devices == [] && GetCount() == 0
    {
      devices := [];
    }

    /** getCount: the number of distinct devices listed. */
    function GetCount(): (n: nat)
      requires Valid()
      reads this
      ensures n == |Members(devices)|
    {
      DistinctCardinality(devices);
      |devices|
    }

    /** getDevice: the device at a position, in first-seen order; a position
        outside the list raises IndexOutOfBounds. */
    function GetDevice(position: int): (r: Result<Device, IndexError>)
      reads this
      ensures r.Success? <==> 0 <= position < |devices|
      ensures r.Success? ==> r.value == devices[position]
      ensures r.Failure? ==> r.error == IndexOutOfBounds(position, |devices|)
    {
      if 0 <= position < |devices| then Success(devices[position])
      else Failure(IndexOutOfBounds(position, |devices|))
    }

    /** getItem: the same lookup as getDevice, typed as a plain item. */
    function GetItem(i: int): (r: Result<Device, IndexError>)
      reads this
      ensures r.Success? <==> 0 <= i < |devices|
      ensures r.Success? ==> r.value in devices && r.value == devices[i]
    {
      GetDevice(i)
    }

    /** getItemId: a row's id is its position. */
    function GetItemId(i: int): (id: int)
      ensures id == i
    {
      i
    }
  }
}
