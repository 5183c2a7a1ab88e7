/** The biometric devices page: the list of registered devices, its loading
    flag, the confirmed delete and the status badge colour. */
module HrBiometricDevices {
  import opened Wrappers
  import Lists

  /** A row of `attendance_devices` as the page lists it. */
  datatype DeviceCard = DeviceCard(
    id: string, deviceName: string, deviceId: string, status: string,
    lastSync: Option<string>, createdAt: string)

  function CardId(d: DeviceCard): string { d.id }

  /** Line 66: `devices.filter(d => d.id !== deviceId)`. */
  function DevicesWithout(devices: seq<DeviceCard>, id: string): seq<DeviceCard>
  {
    Lists.WithoutKey(devices, CardId, id)
  }

  /** A delete leaves exactly the other devices, in their order. */
  lemma DeviceDeleted(devices: seq<DeviceCard>, id: string, d: DeviceCard)
    ensures d in DevicesWithout(devices, id) <==> d in devices && d.id != id
    ensures Lists.IsSubsequence(DevicesWithout(devices, id), devices)
    ensures DevicesWithout(DevicesWithout(devices, id), id) == DevicesWithout(devices, id)
  {
    Lists.WithoutKeyExactly(devices, CardId, id, d);
    Lists.WithoutKeyIdempotentCommutes(devices, CardId, id, id);
  }

  /** The page's state. */
  class DevicePage {
    var devices: seq<DeviceCard>
    var loading: bool

    constructor ()
      ensures devices == [] && loading
    {
      devices, loading := [], true;
    }

    /** `fetchDevices` up to its `await`. */
    method BeginFetch()
      modifies this
      ensures loading && devices == old(devices)
    {
      loading := true;
    }

    /** `fetchDevices` after the query: a failure (an error result or a thrown
        client) keeps the list; otherwise it becomes the rows, or empty when
        none came back; `loading` ends false either way. */
    method EndFetch(failed: bool, rows: Option<seq<DeviceCard>>)
      modifies this
      ensures devices == (if failed then old(devices) else if rows.Some? then rows.value else [])
      ensures !loading
    {
      if !failed {
        devices := if rows.Some? then rows.value else [];
      }
      loading := false;
    }

    /** `handleDeleteDevice`: `confirmed` is the answer to the confirm dialog,
        `remote` how the database delete turns out; `requested` is whether the
        delete was sent at all. */
    method DeleteDevice(id: string, confirmed: bool, remote: Outcome) returns (requested: bool)
      modifies this
      ensures requested == confirmed
      ensures devices == (if confirmed && remote.Success? then DevicesWithout(old(devices), id) else old(devices))
      ensures loading == old(loading)
    {
      if !confirmed {
        return false;
      }
      requested := true;
      if remote.Failure? {
        return;
      }
      devices := DevicesWithout(devices, id);
    }
  }

  const Grey: string := "bg-gray-100 text-gray-800"

  /** `getStatusColor`, lines 80-91. */
  function StatusColor(status: string): (r: string)
    ensures r in {"bg-green-100 text-green-800", Grey, "bg-red-100 text-red-800"}
  {
    match status
    case "active" => "bg-green-100 text-green-800"
    case "inactive" => Grey
    case "suspended" => "bg-red-100 text-red-800"
    case _ => Grey
  }

  /** Active and suspended devices have colours of their own; inactive and
      every other status are grey. */
  lemma StatusColorsDistinguish(status: string)
    ensures StatusColor(status) == Grey <==> status != "active" && status != "suspended"
    ensures StatusColor("active") != StatusColor("suspended")
  {
  }
}
