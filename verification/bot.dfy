/** A bot definition: the tables of installed integrations and of interface dependencies that `add`
    fills in, beside the bot's own states, events and actions. */
module Bot {
  import opened Wrappers
  import opened Records
  import opened Schemas
  import opened Integration

  /** A JSON value: configurations and event payloads. */
  datatype Json =
    | JNull
    | JBool(b: bool)
    | JNumber(n: int)
    | JString(s: string)
    | JArray(items: seq<Json>)
    | JObject(members: map<string, Json>)

  datatype TagDefinition = TagDefinition(title: Option<string>, description: Option<string>)

  /** The user, conversation and message definitions: tag tables. */
  datatype TagsDefinition = TagsDefinition(tags: Option<map<string, TagDefinition>>)

  datatype StateType = ConversationState | UserState | BotState

  datatype StateDefinition = StateDefinition(schema: Shape, stateType: StateType, expiry: Option<int>)

  datatype RecurringEventDefinition = RecurringEventDefinition(eventType: string, payload: Json, cron: string)

  /** The part of an integration package's definition the bot reads: its identity and the resolved
      implementation statements, under their binding keys. */
  datatype IntegrationPackageDefinition = IntegrationPackageDefinition(
    name: string,
    version: string,
    interfaces: Option<map<string, InterfaceImplementationStatement>>)

  /** An integration package. `enabled` stands for a field of that name on the package object, which
      the spread in `_addIntegration` would let win over the configuration's. */
  datatype IntegrationPackage = IntegrationPackage(
    id: Option<string>, definition: IntegrationPackageDefinition, enabled: Option<bool>)

  datatype IntegrationConfigInstance = IntegrationConfigInstance(
    enabled: bool, configurationType: Option<string>, configuration: Json)

  /** An installed integration: the package with its configuration. */
  datatype IntegrationInstance = IntegrationInstance(
    pkg: IntegrationPackage, enabled: bool, configurationType: Option<string>, configuration: Json)

  /** What `add` is given, told apart by the package's `type`. */
  datatype Package =
    | IntegrationPkg(integration: IntegrationPackage)
    | InterfacePkg(intrface: InterfacePackage)
    | OtherPkg(packageType: string)

  datatype BotDefinitionProps = BotDefinitionProps(
    integrations: Option<Record<IntegrationInstance>>,
    interfaces: Option<Record<InterfacePackage>>,
    user: Option<TagsDefinition>,
    conversation: Option<TagsDefinition>,
    message: Option<TagsDefinition>,
    states: Option<Record<StateDefinition>>,
    configuration: Option<Shape>,
    events: Option<Record<EventDefinition>>,
    recurringEvents: Option<map<string, RecurringEventDefinition>>,
    actions: Option<Record<ActionDefinition>>)

  /** `{ enabled: config.enabled, ...integrationPkg, configurationType: config.configurationType,
      configuration: config.configuration }` */
  function InstanceOf(integrationPkg: IntegrationPackage, config: IntegrationConfigInstance)
    : (r: IntegrationInstance)
    ensures r.pkg == integrationPkg
    ensures r.enabled == if integrationPkg.enabled.Some? then integrationPkg.enabled.value else config.enabled
    ensures r.configurationType == config.configurationType && r.configuration == config.configuration
  {
    IntegrationInstance(integrationPkg, integrationPkg.enabled.GetOr(config.enabled),
                        config.configurationType, config.configuration)
  }

  class BotDefinition {
    var integrations: Option<Record<IntegrationInstance>>
    var interfaces: Option<Record<InterfacePackage>>
    const user: Option<TagsDefinition>
    const conversation: Option<TagsDefinition>
    const message: Option<TagsDefinition>
    const states: Option<Record<StateDefinition>>
    const configuration: Option<Shape>
    const events: Option<Record<EventDefinition>>
    const recurringEvents: Option<map<string, RecurringEventDefinition>>
    const actions: Option<Record<ActionDefinition>>

    constructor (props: BotDefinitionProps)
      ensures integrations == props.integrations && interfaces == props.interfaces
      ensures user == props.user && conversation == props.conversation && message == props.message
      ensures states == props.states && configuration == props.configuration && events == props.events
      ensures recurringEvents == props.recurringEvents && actions == props.actions
    {
      integrations := props.integrations;
      interfaces := props.interfaces;
      user := props.user;
      conversation := props.conversation;
      message := props.message;
      states := props.states;
      configuration := props.configuration;
      events := props.events;
      recurringEvents := props.recurringEvents;
      actions := props.actions;
    }

    /** `add(pkg, config)`; an integration package comes with its configuration. */
    method Add(pkg: Package, config: Option<IntegrationConfigInstance>) returns (self: BotDefinition)
      requires pkg.IntegrationPkg? ==> config.Some?
      modifies this`integrations, this`interfaces
      ensures self == this
      ensures pkg.IntegrationPkg? ==>
        && integrations == Some(Put(old(integrations).GetOr([]), pkg.integration.definition.name,
                                    InstanceOf(pkg.integration, config.value)))
        && interfaces == old(interfaces)
      ensures pkg.InterfacePkg? ==>
        && interfaces == Some(Put(old(interfaces).GetOr([]), pkg.intrface.definition.name, pkg.intrface))
        && integrations == old(integrations)
      ensures pkg.OtherPkg? ==> unchanged(this)
    {
      if pkg.IntegrationPkg? {
        self := AddIntegration(pkg.integration, config.value);
        return;
      }
      if pkg.InterfacePkg? {
        self := AddInterface(pkg.intrface);
        return;
      }
      return this;
    }

    /** `_addIntegration(integrationPkg, config)` */
    method AddIntegration(integrationPkg: IntegrationPackage, config: IntegrationConfigInstance)
      returns (self: BotDefinition)
      modifies this`integrations
      ensures self == this
      ensures integrations == Some(Put(old(integrations).GetOr([]), integrationPkg.definition.name,
                                       InstanceOf(integrationPkg, config)))
    {
      if integrations.None? {
        integrations := Some([]);
      }
      integrations := Some(Put(integrations.value, integrationPkg.definition.name,
                               InstanceOf(integrationPkg, config)));
      return this;
    }

    /** `_addInterface(interfacePackage)` */
    method AddInterface(interfacePackage: InterfacePackage) returns (self: BotDefinition)
      modifies this`interfaces
      ensures self == this
      ensures interfaces == Some(Put(old(interfaces).GetOr([]), interfacePackage.definition.name,
                                     interfacePackage))
    {
      if interfaces.None? {
        interfaces := Some([]);
      }
      interfaces := Some(Put(interfaces.value, interfacePackage.definition.name, interfacePackage));
      return this;
    }
  }

  /** Adding an entry under a name replaces any entry of that name and leaves every other entry as
      it was; a new name goes last. */
  lemma PutReplacesOnlyItsKey<V>(r: Record<V>, k: string, v: V)
    ensures var m := ToMap(Put(r, k, v));
      && m.Keys == Keys(r) + {k}
      && m[k] == v
      && forall x :: x in Keys(r) && x != k ==> m[x] == ToMap(r)[x]
    ensures KeySeq(Put(r, k, v)) == if k in Keys(r) then KeySeq(r) else KeySeq(r) + [k]
  {
  }
}
