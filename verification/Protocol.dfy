/** The heartbeat as the agent builds, queues and sends it. */
module Protocol {
  import opened Prelude

  /** A JSON metric value; `Other` is any value that is neither text nor number. */
  datatype Field = Text(text: string) | Num(value: real) | Other(json: string)

  /** Metric field names: those the agent reads or writes by name, and all others. */
  datatype FieldName =
    | KeyField | KindField | IdField | NameField | SourceField | MountPointField | MountField
    | PciAddressField | UuidField | TemperatureCField | TemperatureCelsiusField
    | OtherField(name: string)

  type Fields = map<FieldName, Field>

  datatype ServiceInfo = ServiceInfo(manager: string, name: string, detail: string)
  datatype ContainerInfo = ContainerInfo(runtime: string, runtimeId: string, detail: string)
  datatype StorageInfo = StorageInfo(deviceId: string, detail: string)

  /** One value of a state family; the source's type parameter `T`. */
  datatype Record =
    | Service(service: ServiceInfo)
    | Container(container: ContainerInfo)
    | Storage(storage: StorageInfo)
    | Metric(fields: Fields)

  /** The names of the seven state families. `Unknown` is any other name a server
      may put in a reconcile request. */
  datatype Family =
    | Services | Containers | Filesystems | GPUs | Sensors | System | StorageHealth
    | Unknown(name: string)

  /** The order in which a compact heartbeat is built. */
  const FamilyOrder: seq<Family> := [Services, Containers, Filesystems, GPUs, Sensors, System, StorageHealth]

  datatype StateFamily = StateFamily(revision: nat, full: bool, changed: seq<Record>, removed: seq<string>)

  /** What the collectors report, before it is split into families. */
  datatype Inventory = Inventory(
    services: seq<ServiceInfo>,
    containers: seq<ContainerInfo>,
    storage: seq<StorageInfo>,
    filesystems: seq<Fields>,
    gpus: seq<Fields>,
    sensors: seq<Fields>,
    system: Fields)

  const NoInventory := Inventory([], [], [], [], [], [], map[])

  datatype Availability = Available | Unavailable | PermissionBlocked | Disabled

  datatype Capability = Capability(state: Availability, detail: string)

  type Capabilities = map<string, Capability>

  datatype Heartbeat = Heartbeat(
    sequence: nat,
    collectedAt: int,
    droppedSamples: nat,
    monitoringRevision: nat,
    capabilities: Capabilities,
    capabilitiesHash: string,
    inventory: Inventory,
    state: Option<map<Family, StateFamily>>)

  // ---------- Validation ----------

  predicate IsSha256Hex(s: string) {
    |s| == 64 && forall i :: 0 <= i < |s| ==> 'a' <= s[i] <= 'f' || '0' <= s[i] <= '9'
  }

  /** Either the capabilities themselves or a well-formed digest of them. */
  predicate CapabilityClause(hb: Heartbeat) {
    hb.capabilities == map[] ==> IsSha256Hex(hb.capabilitiesHash)
  }

  /** A present family has a nonzero revision and bounded lists. Its `removed` list
      is never nil, so a zero revision is always an error. */
  predicate StateClause(hb: Heartbeat) {
    hb.state.Some? ==>
      forall f :: f in hb.state.value ==>
        var family := hb.state.value[f];
        family.revision != 0 && |family.changed| <= 512 && |family.removed| <= 512
  }
}
