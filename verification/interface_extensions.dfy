/** The table the action proxies read: for each integration or interface name a caller may address,
    the integration that provides it and the names its members have there. */
module InterfaceExtensions {
  import opened Schemas

  /** One entry of the table. `actions`, `events` and `channels` map a member key to the name of
      that member inside the providing integration (the `{ name }` records of the source). */
  datatype InterfaceExtension = InterfaceExtension(
    name: string,
    version: string,
    entities: map<string, Schema>,
    actions: map<string, string>,
    events: map<string, string>,
    channels: map<string, string>)

  /** The extension `_callAction` falls back to for a name that is not in the table. */
  function DefaultExtension(name: string): (ext: InterfaceExtension)
    ensures ext.name == name && ext.version == "0.0.0"
    ensures ext.entities == map[] && ext.actions == map[] && ext.events == map[] && ext.channels == map[]
  {
    InterfaceExtension(name, "0.0.0", map[], map[], map[], map[])
  }

  /** `interfaceExtension.actions[methodName]?.name ?? methodName` */
  function ActionSuffix(ext: InterfaceExtension, methodName: string): (suffix: string)
    ensures methodName in ext.actions ==> suffix == ext.actions[methodName]
    ensures methodName !in ext.actions ==> suffix == methodName
  {
    if methodName in ext.actions then ext.actions[methodName] else methodName
  }
}
