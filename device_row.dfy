/** The text a list row shows for a device. */
module DeviceRow {
  import opened Wrappers

  /** The name shown for a device: its advertised name when there is one
      (getName() is not null) and it is not empty, otherwise the
      unknown-device placeholder string. */
  function DisplayName(name: Option<string>, unknownDevice: string): (shown: string)
    ensures name.Some? && |name.value| > 0 ==> shown == name.value
    ensures shown == unknownDevice || Some(shown) == name
    ensures |unknownDevice| > 0 ==> |shown| > 0
  {
    match name
    case Some(n) => if |n| > 0 then n else unknownDevice
    case None => unknownDevice
  }
}
