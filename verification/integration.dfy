/** An integration definition and its `extend` operation: instantiating a generic interface against the
    integration's own entities, then folding the interface's actions, events and channels into the
    integration's tables. */
module Integration {
  import opened Wrappers
  import opened Records
  import opened Strings
  import opened Schemas

  datatype ActionDefinition = ActionDefinition(
    title: Option<string>, description: Option<string>, input: Shape, output: Shape)

  datatype EventDefinition = EventDefinition(
    title: Option<string>, description: Option<string>, schema: Shape)

  datatype MessageDefinition = MessageDefinition(schema: Shape)

  datatype ChannelDefinition = ChannelDefinition(
    title: Option<string>, description: Option<string>, messages: map<string, MessageDefinition>)

  datatype EntityDefinition = EntityDefinition(
    title: Option<string>, description: Option<string>, schema: Schema)

  /** A published interface: its identity, its placeholder entities and its member templates, whose
      schemas may refer to the placeholders. Members are kept in declaration order. */
  datatype InterfaceDefinition = InterfaceDefinition(
    name: string,
    version: string,
    entities: Option<map<string, EntityDefinition>>,
    actions: Option<Record<ActionDefinition>>,
    events: Option<Record<EventDefinition>>,
    channels: Option<Record<ChannelDefinition>>)

  datatype InterfacePackage = InterfacePackage(id: Option<string>, definition: InterfaceDefinition)

  /** A schema returned by the extension builder: whether it carries the integration's entity brand,
      the entity name the brand records, and the schema itself. */
  datatype EntityRef = EntityRef(branded: bool, name: string, schema: Schema)

  /** A builder rename table: member key to `{ name?: string }`. */
  type AliasTable = map<string, Option<string>>

  /** What the extension builder returns; the entities keep the order the builder wrote them in. */
  datatype ExtensionBuilderOutput = ExtensionBuilderOutput(
    entities: Record<EntityRef>,
    actions: Option<AliasTable>,
    events: Option<AliasTable>,
    channels: Option<AliasTable>)

  datatype EntityBinding = EntityBinding(name: string, schema: Schema)

  /** The record of one interface instantiation. Each alias table maps an interface member to the
      name the member has inside the integration. */
  datatype InterfaceImplementationStatement = InterfaceImplementationStatement(
    id: Option<string>,
    name: string,
    version: string,
    entities: map<string, EntityBinding>,
    actions: map<string, string>,
    events: map<string, string>,
    channels: map<string, string>)

  datatype ExtendError = UnbrandedEntity(interfaceName: string, entityKey: string)

  /** The text of the thrown error: it names the interface and the offending entity key. */
  function ExtendErrorMessage(e: ExtendError): (r: string)
    ensures Contains(r, e.interfaceName) && Contains(r, e.entityKey)
  {
    var head := "Cannot extend interface \"";
    var middle := "\" with entity \"";
    var tail := "\"; the provided schema is not part of the integration's entities.";
    var r := head + e.interfaceName + middle + e.entityKey + tail;
    assert r[|head|..|head| + |e.interfaceName|] == e.interfaceName;
    assert OccursAt(r, e.interfaceName, |head|);
    var at := |head| + |e.interfaceName| + |middle|;
    assert r[at..at + |e.entityKey|] == e.entityKey;
    assert OccursAt(r, e.entityKey, at);
    r
  }

  datatype IntegrationDefinitionProps = IntegrationDefinitionProps(
    name: string,
    version: string,
    entities: Option<map<string, EntityDefinition>>,
    actions: Option<map<string, ActionDefinition>>,
    events: Option<map<string, EventDefinition>>,
    channels: Option<map<string, ChannelDefinition>>,
    interfaces: Option<map<string, InterfaceImplementationStatement>>)

  // ---------------------------------------------------------------------------------------------
  // Entity binding

  /** The key of the first entity, in builder order, that is not branded. */
  function FirstUnbranded(entities: Record<EntityRef>): (r: Option<string>)
    ensures r.None? <==> forall i :: 0 <= i < |entities| ==> entities[i].1.branded
    ensures r.Some? ==>
      exists i :: 0 <= i < |entities| && entities[i].0 == r.value && !entities[i].1.branded
        && forall j :: 0 <= j < i ==> entities[j].1.branded
  {
    if |entities| == 0 then None
    else if !entities[0].1.branded then Some(entities[0].0)
    else
      var r := FirstUnbranded(entities[1..]);
      assert forall i :: 1 <= i < |entities| ==> entities[i] == entities[1..][i - 1];
      r
  }

  /** The concrete entity names in builder order. */
  function EntityNames(entities: Record<EntityRef>): (names: seq<string>)
    ensures |names| == |entities|
    ensures forall i :: 0 <= i < |entities| ==> names[i] == entities[i].1.name
  {
    seq(|entities|, i requires 0 <= i < |entities| => entities[i].1.name)
  }

  /** The key an implementation statement is stored under. */
  function BindingKey(interfaceName: string, entityNames: seq<string>): (k: string)
    ensures |entityNames| == 0 ==> k == interfaceName
    ensures |entityNames| > 0 ==>
      && |k| == |interfaceName| + |Join(entityNames, ",")| + 2
      && k[..|interfaceName|] == interfaceName && k[|interfaceName|] == '<' && k[|k| - 1] == '>'
      && k[|interfaceName| + 1..|k| - 1] == Join(entityNames, ",")
  {
    if |entityNames| == 0 then interfaceName
    else interfaceName + "<" + Join(entityNames, ",") + ">"
  }

  /** `aliases[key]?.name ?? key` */
  function AliasOf(aliases: Option<AliasTable>, key: string): (r: string)
    ensures aliases.Some? && key in aliases.value && aliases.value[key].Some? ==>
      r == aliases.value[key].value
    ensures !(aliases.Some? && key in aliases.value && aliases.value[key].Some?) ==> r == key
  {
    if aliases.Some? && key in aliases.value && aliases.value[key].Some? then aliases.value[key].value
    else key
  }

  /** One alias per member of an interface table. */
  function MemberAliases<D>(members: Record<D>, aliases: Option<AliasTable>): (t: map<string, string>)
    ensures t.Keys == Keys(members)
    ensures forall k :: k in t ==> t[k] == AliasOf(aliases, k)
  {
    map k | k in Keys(members) :: AliasOf(aliases, k)
  }

  /** The statement `extend` builds from the interface package and the builder's output. */
  function ImplementationStatement(pkg: InterfacePackage, out: ExtensionBuilderOutput)
    : (s: InterfaceImplementationStatement)
    ensures s.id == pkg.id && s.name == pkg.definition.name && s.version == pkg.definition.version
    ensures s.entities.Keys == Keys(out.entities)
    ensures forall i :: 0 <= i < |out.entities| ==>
      s.entities[out.entities[i].0] == EntityBinding(out.entities[i].1.name, out.entities[i].1.schema)
    ensures s.actions.Keys == Keys(pkg.definition.actions.GetOr([]))
    ensures s.events.Keys == Keys(pkg.definition.events.GetOr([]))
    ensures s.channels.Keys == Keys(pkg.definition.channels.GetOr([]))
    ensures forall k :: k in s.actions ==> s.actions[k] == AliasOf(out.actions, k)
    ensures forall k :: k in s.events ==> s.events[k] == AliasOf(out.events, k)
    ensures forall k :: k in s.channels ==> s.channels[k] == AliasOf(out.channels, k)
  {
    var bound := ToMap(out.entities);
    InterfaceImplementationStatement(
      pkg.id,
      pkg.definition.name,
      pkg.definition.version,
      map k | k in bound :: EntityBinding(bound[k].name, bound[k].schema),
      MemberAliases(pkg.definition.actions.GetOr([]), out.actions),
      MemberAliases(pkg.definition.events.GetOr([]), out.events),
      MemberAliases(pkg.definition.channels.GetOr([]), out.channels))
  }

  /** `mapValues(statement.entities, (entity) => entity.schema)` */
  function EntitySchemas(entities: map<string, EntityBinding>): (env: map<string, Schema>)
    ensures env.Keys == entities.Keys
  {
    map k | k in entities :: entities[k].schema
  }

  // ---------------------------------------------------------------------------------------------
  // Dereferencing and renaming

  /** `statement.actions[key]?.name ?? key` */
  function NewName(aliases: map<string, string>, key: string): (n: string)
    ensures key in aliases ==> n == aliases[key]
    ensures key !in aliases ==> n == key
  {
    if key in aliases then aliases[key] else key
  }

  /** Members stored one after the other under their new names: a later member whose new name
      equals an earlier one's overwrites it. */
  function Renamed<D>(e: Entries<D>, aliases: map<string, string>): (t: map<string, D>)
    ensures t.Keys == NewNames(e, aliases)
  {
    if |e| == 0 then map[]
    else
      var init := e[..|e| - 1];
      assert forall i :: 0 <= i < |init| ==> init[i] == e[i];
      Renamed(init, aliases)[NewName(aliases, e[|e| - 1].0) := e[|e| - 1].1]
  }

  /** The statement's alias table after the loop has written every visited member's name back. */
  function WrittenBack(aliases: map<string, string>, visited: set<string>): (t: map<string, string>)
    ensures t.Keys == aliases.Keys + visited
  {
    map k | k in aliases.Keys + visited :: NewName(aliases, k)
  }

  function ResolveAction(a: ActionDefinition, env: map<string, Schema>): ActionDefinition
  {
    a.(input := DerefShape(a.input, env), output := DerefShape(a.output, env))
  }

  function ResolveEvent(e: EventDefinition, env: map<string, Schema>): EventDefinition
  {
    e.(schema := DerefShape(e.schema, env))
  }

  function ResolveMessages(messages: map<string, MessageDefinition>, env: map<string, Schema>)
    : map<string, MessageDefinition>
  {
    map m | m in messages :: messages[m].(schema := DerefShape(messages[m].schema, env))
  }

  /** A channel keeps its title, its description and its messages' names; only the message schemas
      are dereferenced. */
  function ResolveChannel(c: ChannelDefinition, env: map<string, Schema>): (r: ChannelDefinition)
    ensures r.title == c.title && r.description == c.description
    ensures r.messages.Keys == c.messages.Keys
    ensures forall m :: m in r.messages ==> r.messages[m].schema == DerefShape(c.messages[m].schema, env)
  {
    c.(messages := ResolveMessages(c.messages, env))
  }

  function DerefActions(e: Entries<ActionDefinition>, env: map<string, Schema>): (r: Entries<ActionDefinition>)
    ensures |r| == |e| && forall i :: 0 <= i < |e| ==> r[i] == (e[i].0, ResolveAction(e[i].1, env))
  {
    seq(|e|, i requires 0 <= i < |e| => (e[i].0, ResolveAction(e[i].1, env)))
  }

  function DerefEvents(e: Entries<EventDefinition>, env: map<string, Schema>): (r: Entries<EventDefinition>)
    ensures |r| == |e| && forall i :: 0 <= i < |e| ==> r[i] == (e[i].0, ResolveEvent(e[i].1, env))
  {
    seq(|e|, i requires 0 <= i < |e| => (e[i].0, ResolveEvent(e[i].1, env)))
  }

  function DerefChannels(e: Entries<ChannelDefinition>, env: map<string, Schema>): (r: Entries<ChannelDefinition>)
    ensures |r| == |e| && forall i :: 0 <= i < |e| ==> r[i] == (e[i].0, ResolveChannel(e[i].1, env))
  {
    seq(|e|, i requires 0 <= i < |e| => (e[i].0, ResolveChannel(e[i].1, env)))
  }

  /** The table of actions one interface contributes under a statement. */
  function ResolvedActions(intrface: InterfacePackage, statement: InterfaceImplementationStatement)
    : (t: map<string, ActionDefinition>)
    ensures t.Keys == NewNames(intrface.definition.actions.GetOr([]), statement.actions)
  {
    var d := DerefActions(intrface.definition.actions.GetOr([]), EntitySchemas(statement.entities));
    assert NewNames(d, statement.actions) == NewNames(intrface.definition.actions.GetOr([]), statement.actions);
    Renamed(d, statement.actions)
  }

  function ResolvedEvents(intrface: InterfacePackage, statement: InterfaceImplementationStatement)
    : (t: map<string, EventDefinition>)
    ensures t.Keys == NewNames(intrface.definition.events.GetOr([]), statement.events)
  {
    var d := DerefEvents(intrface.definition.events.GetOr([]), EntitySchemas(statement.entities));
    assert NewNames(d, statement.events) == NewNames(intrface.definition.events.GetOr([]), statement.events);
    Renamed(d, statement.events)
  }

  function ResolvedChannels(intrface: InterfacePackage, statement: InterfaceImplementationStatement)
    : (t: map<string, ChannelDefinition>)
    ensures t.Keys == NewNames(intrface.definition.channels.GetOr([]), statement.channels)
  {
    var d := DerefChannels(intrface.definition.channels.GetOr([]), EntitySchemas(statement.entities));
    assert NewNames(d, statement.channels) == NewNames(intrface.definition.channels.GetOr([]), statement.channels);
    Renamed(d, statement.channels)
  }

  /** The statement after the resolution loops wrote each member's name back into it. */
  function WrittenBackStatement(intrface: InterfacePackage, statement: InterfaceImplementationStatement)
    : (s: InterfaceImplementationStatement)
    ensures s.id == statement.id && s.name == statement.name && s.version == statement.version
    ensures s.entities == statement.entities
    ensures s.actions.Keys == statement.actions.Keys + Keys(intrface.definition.actions.GetOr([]))
    ensures s.events.Keys == statement.events.Keys + Keys(intrface.definition.events.GetOr([]))
    ensures s.channels.Keys == statement.channels.Keys + Keys(intrface.definition.channels.GetOr([]))
    ensures forall k :: k in statement.actions ==> s.actions[k] == statement.actions[k]
    ensures forall k :: k in statement.events ==> s.events[k] == statement.events[k]
    ensures forall k :: k in statement.channels ==> s.channels[k] == statement.channels[k]
    ensures forall k :: k in s.actions && k !in statement.actions ==> s.actions[k] == k
    ensures forall k :: k in s.events && k !in statement.events ==> s.events[k] == k
    ensures forall k :: k in s.channels && k !in statement.channels ==> s.channels[k] == k
  {
    statement.(
      actions := WrittenBack(statement.actions, Keys(intrface.definition.actions.GetOr([]))),
      events := WrittenBack(statement.events, Keys(intrface.definition.events.GetOr([]))),
      channels := WrittenBack(statement.channels, Keys(intrface.definition.channels.GetOr([]))))
  }

  // ---------------------------------------------------------------------------------------------
  // The three resolution loops

  /** One more member stored: the table of the first `i + 1` members. */
  lemma RenamedStep<D>(e: Entries<D>, aliases: map<string, string>, i: nat)
    requires i < |e|
    ensures Renamed(e[..i + 1], aliases) == Renamed(e[..i], aliases)[NewName(aliases, e[i].0) := e[i].1]
  {
    assert e[..i + 1][..i] == e[..i];
  }

  /** One step of a resolution loop: the name read from the alias table as written so far is the
      name the original table gives, because each member key is visited once. */
  lemma WrittenBackStep<D>(defs: Record<D>, aliases: map<string, string>, i: nat)
    requires i < |defs|
    ensures NewName(WrittenBack(aliases, Keys(defs[..i])), defs[i].0) == NewName(aliases, defs[i].0)
    ensures WrittenBack(aliases, Keys(defs[..i]))[defs[i].0 := NewName(aliases, defs[i].0)]
            == WrittenBack(aliases, Keys(defs[..i + 1]))
  {
    assert defs[i].0 !in Keys(defs[..i]) by {
      forall j | 0 <= j < i ensures defs[..i][j].0 != defs[i].0 {
        assert defs[..i][j] == defs[j];
      }
    }
    assert Keys(defs[..i + 1]) == Keys(defs[..i]) + {defs[i].0} by {
      assert defs[..i + 1] == defs[..i] + [defs[i]];
      forall x | x in Keys(defs[..i]) ensures x in Keys(defs[..i + 1]) {
        var j :| 0 <= j < i && defs[..i][j].0 == x;
        assert defs[..i + 1][j].0 == x;
      }
    }
  }

  /** `for (const [actionName, action] of Object.entries(intrface.definition.actions ?? {}))` */
  method ResolveActionsLoop(defs: Record<ActionDefinition>, aliases: map<string, string>,
                            env: map<string, Schema>)
    returns (actions: map<string, ActionDefinition>, written: map<string, string>)
    ensures actions == Renamed(DerefActions(defs, env), aliases)
    ensures written == WrittenBack(aliases, Keys(defs))
  {
    ghost var resolved := DerefActions(defs, env);
    actions, written := map[], aliases;
    assert Keys(defs[..0]) == {};
    for i := 0 to |defs|
      invariant actions == Renamed(resolved[..i], aliases)
      invariant written == WrittenBack(aliases, Keys(defs[..i]))
    {
      var (actionName, action) := defs[i];
      var resolvedInputSchema := DerefShape(action.input, env);
      var resolvedOutputSchema := DerefShape(action.output, env);
      WrittenBackStep(defs, aliases, i);
      var newActionName := NewName(written, actionName);
      RenamedStep(resolved, aliases, i);
      actions := actions[newActionName := action.(input := resolvedInputSchema, output := resolvedOutputSchema)];
      written := written[actionName := newActionName];
    }
    assert resolved[..|defs|] == resolved;
    assert defs[..|defs|] == defs;
  }

  /** `for (const [eventName, event] of Object.entries(intrface.definition.events ?? {}))` */
  method ResolveEventsLoop(defs: Record<EventDefinition>, aliases: map<string, string>,
                           env: map<string, Schema>)
    returns (events: map<string, EventDefinition>, written: map<string, string>)
    ensures events == Renamed(DerefEvents(defs, env), aliases)
    ensures written == WrittenBack(aliases, Keys(defs))
  {
    ghost var resolved := DerefEvents(defs, env);
    events, written := map[], aliases;
    assert Keys(defs[..0]) == {};
    for i := 0 to |defs|
      invariant events == Renamed(resolved[..i], aliases)
      invariant written == WrittenBack(aliases, Keys(defs[..i]))
    {
      var (eventName, event) := defs[i];
      var resolvedEventSchema := DerefShape(event.schema, env);
      WrittenBackStep(defs, aliases, i);
      var newEventName := NewName(written, eventName);
      RenamedStep(resolved, aliases, i);
      events := events[newEventName := event.(schema := resolvedEventSchema)];
      written := written[eventName := newEventName];
    }
    assert resolved[..|defs|] == resolved;
    assert defs[..|defs|] == defs;
  }

  /** `for (const [messageName, message] of Object.entries(channel.messages))`; messages keep
      their names, the channel is their namespace. */
  method ResolveMessagesLoop(messages: map<string, MessageDefinition>, env: map<string, Schema>)
    returns (resolved: map<string, MessageDefinition>)
    ensures resolved.Keys == messages.Keys
    ensures forall m :: m in messages ==> resolved[m].schema == DerefShape(messages[m].schema, env)
  {
    resolved := map[];
    var todo := messages.Keys;
    while todo != {}
      invariant todo <= messages.Keys
      invariant resolved.Keys == messages.Keys - todo
      invariant forall m :: m in resolved ==> resolved[m].schema == DerefShape(messages[m].schema, env)
      decreases todo
    {
      var messageName :| messageName in todo;
      var message := messages[messageName];
      var resolvedMessageSchema := DerefShape(message.schema, env);
      resolved := resolved[messageName := message.(schema := resolvedMessageSchema)];
      todo := todo - {messageName};
    }
  }

  /** A table with the messages' names whose every schema is dereferenced is `ResolveMessages`. */
  lemma ResolvedMessagesAre(messages: map<string, MessageDefinition>, env: map<string, Schema>,
                            resolved: map<string, MessageDefinition>)
    requires resolved.Keys == messages.Keys
    requires forall m :: m in messages ==> resolved[m].schema == DerefShape(messages[m].schema, env)
    ensures resolved == ResolveMessages(messages, env)
  {
  }

  /** `for (const [channelName, channel] of Object.entries(intrface.definition.channels ?? {}))` */
  method ResolveChannelsLoop(defs: Record<ChannelDefinition>, aliases: map<string, string>,
                             env: map<string, Schema>)
    returns (channels: map<string, ChannelDefinition>, written: map<string, string>)
    ensures channels == Renamed(DerefChannels(defs, env), aliases)
    ensures written == WrittenBack(aliases, Keys(defs))
  {
    ghost var resolved := DerefChannels(defs, env);
    channels, written := map[], aliases;
    assert Keys(defs[..0]) == {};
    for i := 0 to |defs|
      invariant channels == Renamed(resolved[..i], aliases)
      invariant written == WrittenBack(aliases, Keys(defs[..i]))
    {
      var (channelName, channel) := defs[i];
      var messages := ResolveMessagesLoop(channel.messages, env);
      ResolvedMessagesAre(channel.messages, env, messages);
      WrittenBackStep(defs, aliases, i);
      var newChannelName := NewName(written, channelName);
      RenamedStep(resolved, aliases, i);
      channels := channels[newChannelName := channel.(messages := messages)];
      written := written[channelName := newChannelName];
    }
    assert resolved[..|defs|] == resolved;
    assert defs[..|defs|] == defs;
  }

  /** The three loops of `_resolveInterface`: the local tables they build and the statement as they
      leave it. */
  method ResolveTables(intrface: InterfacePackage, statement: InterfaceImplementationStatement)
    returns (actions: map<string, ActionDefinition>, events: map<string, EventDefinition>,
             channels: map<string, ChannelDefinition>, updated: InterfaceImplementationStatement)
    ensures actions == ResolvedActions(intrface, statement)
    ensures events == ResolvedEvents(intrface, statement)
    ensures channels == ResolvedChannels(intrface, statement)
    ensures updated == WrittenBackStatement(intrface, statement)
  {
    var entitySchemas := EntitySchemas(statement.entities);
    var actionAliases, eventAliases, channelAliases;
    actions, actionAliases :=
      ResolveActionsLoop(intrface.definition.actions.GetOr([]), statement.actions, entitySchemas);
    events, eventAliases :=
      ResolveEventsLoop(intrface.definition.events.GetOr([]), statement.events, entitySchemas);
    channels, channelAliases :=
      ResolveChannelsLoop(intrface.definition.channels.GetOr([]), statement.channels, entitySchemas);
    updated := statement.(actions := actionAliases, events := eventAliases, channels := channelAliases);
  }

  // ---------------------------------------------------------------------------------------------
  // Merging on a name collision

  /** `{ ...a, ...b }` on one optional field: `b`'s value when `b` has the field. */
  function Spread<T>(a: Option<T>, b: Option<T>): (r: Option<T>)
    ensures b.Some? ==> r == b
    ensures b.None? ==> r == a
  {
    if b.Some? then b else a
  }

  /** `_mergeActions`: `b`'s metadata where present, input and output schemas merged. */
  function MergeActions(a: ActionDefinition, b: ActionDefinition): (r: ActionDefinition)
    ensures r.title == Spread(a.title, b.title) && r.description == Spread(a.description, b.description)
    ensures r.input.Keys == a.input.Keys + b.input.Keys && r.output.Keys == a.output.Keys + b.output.Keys
    ensures r.input == MergeShape(a.input, b.input) && r.output == MergeShape(a.output, b.output)
  {
    ActionDefinition(Spread(a.title, b.title), Spread(a.description, b.description),
                     MergeShape(a.input, b.input), MergeShape(a.output, b.output))
  }

  /** `_mergeEvents`: `b`'s metadata where present, payload schemas merged. */
  function MergeEvents(a: EventDefinition, b: EventDefinition): (r: EventDefinition)
    ensures r.title == Spread(a.title, b.title) && r.description == Spread(a.description, b.description)
    ensures r.schema.Keys == a.schema.Keys + b.schema.Keys
    ensures r.schema == MergeShape(a.schema, b.schema)
  {
    EventDefinition(Spread(a.title, b.title), Spread(a.description, b.description),
                    MergeShape(a.schema, b.schema))
  }

  /** `_mergeMessage`: only the merged schema is kept. */
  function MergeMessage(a: MessageDefinition, b: MessageDefinition): (r: MessageDefinition)
    ensures r.schema.Keys == a.schema.Keys + b.schema.Keys
    ensures r.schema == MergeShape(a.schema, b.schema)
  {
    MessageDefinition(MergeShape(a.schema, b.schema))
  }

  /** `_mergeChannels`: `b`'s metadata where present, message tables merged message by message. */
  function MergeChannels(a: ChannelDefinition, b: ChannelDefinition): (r: ChannelDefinition)
    ensures r.title == Spread(a.title, b.title) && r.description == Spread(a.description, b.description)
    ensures r.messages.Keys == a.messages.Keys + b.messages.Keys
    ensures forall m :: m in a.messages && m in b.messages ==>
      r.messages[m] == MergeMessage(a.messages[m], b.messages[m])
    ensures forall m :: m in r.messages && !(m in a.messages && m in b.messages) ==>
      r.messages[m] == if m in a.messages then a.messages[m] else b.messages[m]
  {
    ChannelDefinition(Spread(a.title, b.title), Spread(a.description, b.description),
                      MergeRecords(a.messages, b.messages, MergeMessage))
  }

  // ---------------------------------------------------------------------------------------------
  // The integration definition

  class IntegrationDefinition {
    const name: string
    const version: string
    const entities: Option<map<string, EntityDefinition>>
    var actions: Option<map<string, ActionDefinition>>
    var events: Option<map<string, EventDefinition>>
    var channels: Option<map<string, ChannelDefinition>>
    var interfaces: Option<map<string, InterfaceImplementationStatement>>

    constructor (props: IntegrationDefinitionProps)
      ensures name == props.name && version == props.version && entities == props.entities
      ensures actions == props.actions && events == props.events && channels == props.channels
      ensures interfaces == props.interfaces
    {
      name := props.name;
      version := props.version;
      entities := props.entities;
      actions := props.actions;
      events := props.events;
      channels := props.channels;
      interfaces := props.interfaces;
    }

    /** `extend(interfacePkg, builder)`, with `out` the builder's output. */
    method Extend(interfacePkg: InterfacePackage, out: ExtensionBuilderOutput)
      returns (r: Result<IntegrationDefinition, ExtendError>)
      modifies this
      ensures FirstUnbranded(out.entities).Some? ==>
        && r == Failure(UnbrandedEntity(interfacePkg.definition.name, FirstUnbranded(out.entities).value))
        && unchanged(this)
      ensures FirstUnbranded(out.entities).None? ==>
        var statement := ImplementationStatement(interfacePkg, out);
        && r == Success(this)
        && interfaces == Some(old(interfaces).GetOr(map[])[
             BindingKey(interfacePkg.definition.name, EntityNames(out.entities)) := statement])
        && actions == Some(MergeRecords(old(actions).GetOr(map[]),
                                        ResolvedActions(interfacePkg, statement), MergeActions))
        && events == Some(MergeRecords(old(events).GetOr(map[]),
                                       ResolvedEvents(interfacePkg, statement), MergeEvents))
        && channels == Some(MergeRecords(old(channels).GetOr(map[]),
                                         ResolvedChannels(interfacePkg, statement), MergeChannels))
    {
      var unbrandedEntity := FirstUnbranded(out.entities);
      if unbrandedEntity.Some? {
        return Failure(UnbrandedEntity(interfacePkg.definition.name, unbrandedEntity.value));
      }
      if interfaces.None? {
        interfaces := Some(map[]);
      }
      assert interfaces.value == old(interfaces).GetOr(map[]);
      var statement := ImplementationStatement(interfacePkg, out);
      var entityNames := EntityNames(out.entities);
      var key := BindingKey(interfacePkg.definition.name, entityNames);
      StoreStatement(key, statement);
      var updated := ResolveInterface(interfacePkg, statement);
      // the statement stored under `key` is the object the resolution updated in place
      WrittenBackUnchanged(interfacePkg, out);
      assert updated == statement;
      UpdateSame(interfaces.value, key, updated);
      StoreStatement(key, updated);
      return Success(this);
    }

    /** `self.interfaces[key] = statement` */
    method StoreStatement(key: string, statement: InterfaceImplementationStatement)
      requires interfaces.Some?
      modifies this`interfaces
      ensures interfaces == Some(old(interfaces).value[key := statement])
    {
      interfaces := Some(interfaces.value[key := statement]);
    }

    /** `self.actions = mergeRecords(self.actions ?? {}, actions, this._mergeActions)` */
    method FoldActions(contributed: map<string, ActionDefinition>)
      modifies this`actions
      ensures actions == Some(MergeRecords(old(actions).GetOr(map[]), contributed, MergeActions))
    {
      actions := Some(MergeRecords(actions.GetOr(map[]), contributed, MergeActions));
    }

    /** `self.events = mergeRecords(self.events ?? {}, events, this._mergeEvents)` */
    method FoldEvents(contributed: map<string, EventDefinition>)
      modifies this`events
      ensures events == Some(MergeRecords(old(events).GetOr(map[]), contributed, MergeEvents))
    {
      events := Some(MergeRecords(events.GetOr(map[]), contributed, MergeEvents));
    }

    /** `self.channels = mergeRecords(self.channels ?? {}, channels, this._mergeChannels)` */
    method FoldChannels(contributed: map<string, ChannelDefinition>)
      modifies this`channels
      ensures channels == Some(MergeRecords(old(channels).GetOr(map[]), contributed, MergeChannels))
    {
      channels := Some(MergeRecords(channels.GetOr(map[]), contributed, MergeChannels));
    }

    /** `_resolveInterface(intrface, statement)`; returns the statement as the loops left it. */
    method ResolveInterface(intrface: InterfacePackage, statement: InterfaceImplementationStatement)
      returns (updated: InterfaceImplementationStatement)
      modifies this`actions, this`events, this`channels
      ensures updated == WrittenBackStatement(intrface, statement)
      ensures actions == Some(MergeRecords(old(actions).GetOr(map[]),
                                           ResolvedActions(intrface, statement), MergeActions))
      ensures events == Some(MergeRecords(old(events).GetOr(map[]),
                                          ResolvedEvents(intrface, statement), MergeEvents))
      ensures channels == Some(MergeRecords(old(channels).GetOr(map[]),
                                            ResolvedChannels(intrface, statement), MergeChannels))
    {
      var newActions, newEvents, newChannels;
      newActions, newEvents, newChannels, updated := ResolveTables(intrface, statement);
      FoldActions(newActions);
      FoldChannels(newChannels);
      FoldEvents(newEvents);
    }
  }

  // ---------------------------------------------------------------------------------------------
  // Properties

  /** Storing the value a key already holds leaves a table as it is. */
  lemma UpdateSame<K, V>(m: map<K, V>, k: K, v: V)
    requires k in m && m[k] == v
    ensures m[k := v] == m
  {
  }

  /** Writing back names that were already in the table changes nothing. */
  lemma WrittenBackCovered(aliases: map<string, string>, visited: set<string>)
    requires visited <= aliases.Keys
    ensures WrittenBack(aliases, visited) == aliases
  {
  }

  /** The names `_resolveInterface` writes back into the statement `extend` built are the ones
      `extend` computed: the statement stored under the binding key is unchanged. */
  lemma WrittenBackUnchanged(pkg: InterfacePackage, out: ExtensionBuilderOutput)
    ensures WrittenBackStatement(pkg, ImplementationStatement(pkg, out)) == ImplementationStatement(pkg, out)
  {
    var s := ImplementationStatement(pkg, out);
    WrittenBackCovered(s.actions, Keys(pkg.definition.actions.GetOr([])));
    WrittenBackCovered(s.events, Keys(pkg.definition.events.GetOr([])));
    WrittenBackCovered(s.channels, Keys(pkg.definition.channels.GetOr([])));
  }

  /** The new names of a table's members. */
  function NewNames<D>(e: Entries<D>, aliases: map<string, string>): set<string>
  {
    set i | 0 <= i < |e| :: NewName(aliases, e[i].0)
  }

  /** A member no later member collides with is stored under its new name. */
  lemma {:induction false} RenamedLastWins<D>(e: Entries<D>, aliases: map<string, string>, i: nat)
    requires i < |e|
    requires forall j :: i < j < |e| ==> NewName(aliases, e[j].0) != NewName(aliases, e[i].0)
    ensures NewName(aliases, e[i].0) in Renamed(e, aliases)
    ensures Renamed(e, aliases)[NewName(aliases, e[i].0)] == e[i].1
  {
    if i < |e| - 1 {
      var init := e[..|e| - 1];
      assert init[i] == e[i];
      RenamedLastWins(init, aliases, i);
    }
  }

  /** Every member that no later member of its table collides with appears in the resolved table
      under the name its statement gives it, with input and output dereferenced against the bound
      entity schemas; no other name appears. */
  lemma ResolvedActionsPlacement(intrface: InterfacePackage, statement: InterfaceImplementationStatement, i: nat)
    requires i < |intrface.definition.actions.GetOr([])|
    requires var defs := intrface.definition.actions.GetOr([]);
      forall j :: i < j < |defs| ==> NewName(statement.actions, defs[j].0) != NewName(statement.actions, defs[i].0)
    ensures var defs := intrface.definition.actions.GetOr([]);
      var env := EntitySchemas(statement.entities);
      && ResolvedActions(intrface, statement).Keys == NewNames(defs, statement.actions)
      && ResolvedActions(intrface, statement)[NewName(statement.actions, defs[i].0)]
         == defs[i].1.(input := DerefShape(defs[i].1.input, env), output := DerefShape(defs[i].1.output, env))
  {
    var defs := intrface.definition.actions.GetOr([]);
    var d := DerefActions(defs, EntitySchemas(statement.entities));
    RenamedLastWins(d, statement.actions, i);
  }

  /** The same for events: payloads dereferenced, stored under the statement's names. */
  lemma ResolvedEventsPlacement(intrface: InterfacePackage, statement: InterfaceImplementationStatement, i: nat)
    requires i < |intrface.definition.events.GetOr([])|
    requires var defs := intrface.definition.events.GetOr([]);
      forall j :: i < j < |defs| ==> NewName(statement.events, defs[j].0) != NewName(statement.events, defs[i].0)
    ensures var defs := intrface.definition.events.GetOr([]);
      && ResolvedEvents(intrface, statement).Keys == NewNames(defs, statement.events)
      && ResolvedEvents(intrface, statement)[NewName(statement.events, defs[i].0)]
         == defs[i].1.(schema := DerefShape(defs[i].1.schema, EntitySchemas(statement.entities)))
  {
    var defs := intrface.definition.events.GetOr([]);
    var d := DerefEvents(defs, EntitySchemas(statement.entities));
    RenamedLastWins(d, statement.events, i);
  }

  /** Channels: only the channel is renamed; its messages keep their names and have their schemas
      dereferenced. */
  lemma ResolvedChannelsPlacement(intrface: InterfacePackage, statement: InterfaceImplementationStatement, i: nat)
    requires i < |intrface.definition.channels.GetOr([])|
    requires var defs := intrface.definition.channels.GetOr([]);
      forall j :: i < j < |defs| ==> NewName(statement.channels, defs[j].0) != NewName(statement.channels, defs[i].0)
    ensures var defs := intrface.definition.channels.GetOr([]);
      && ResolvedChannels(intrface, statement).Keys == NewNames(defs, statement.channels)
      && ResolvedChannels(intrface, statement)[NewName(statement.channels, defs[i].0)]
         == ResolveChannel(defs[i].1, EntitySchemas(statement.entities))
  {
    var defs := intrface.definition.channels.GetOr([]);
    var d := DerefChannels(defs, EntitySchemas(statement.entities));
    RenamedLastWins(d, statement.channels, i);
  }


  // ---------------------------------------------------------------------------------------------
  // Binding keys

  /** Two bindings of one interface get the same key only when they bind the same entity names in
      the same order, provided no entity name contains a comma. */
  lemma BindingKeyInjective(interfaceName: string, a: seq<string>, b: seq<string>)
    requires forall i :: 0 <= i < |a| ==> Excludes(a[i], ',')
    requires forall i :: 0 <= i < |b| ==> Excludes(b[i], ',')
    ensures BindingKey(interfaceName, a) == BindingKey(interfaceName, b) <==> a == b
  {
    if BindingKey(interfaceName, a) == BindingKey(interfaceName, b) {
      var k := BindingKey(interfaceName, a);
      var n := |interfaceName|;
      assert (|a| == 0) == (|b| == 0) by {
        assert |a| == 0 <==> |k| == n;
        assert |b| == 0 <==> |k| == n;
      }
      if |a| > 0 {
        assert k[n + 1..|k| - 1] == Join(a, ",");
        assert BindingKey(interfaceName, b)[n + 1..|k| - 1] == Join(b, ",");
        JoinInjective(a, b);
      }
    }
  }

  /** The key records the entity names but not which placeholder each name binds: swapping the two
      placeholders of a binding gives a different statement under the same key. */
  lemma DistinctBindingsShareKey(pkg: InterfacePackage, user: Schema, doc: Schema)
    ensures var first := ExtensionBuilderOutput(
        [("A", EntityRef(true, "User", user)), ("B", EntityRef(true, "Doc", doc))], None, None, None);
      var second := ExtensionBuilderOutput(
        [("B", EntityRef(true, "User", user)), ("A", EntityRef(true, "Doc", doc))], None, None, None);
      && BindingKey(pkg.definition.name, EntityNames(first.entities))
         == BindingKey(pkg.definition.name, EntityNames(second.entities))
      && ImplementationStatement(pkg, first).entities != ImplementationStatement(pkg, second).entities
  {
    var first := ExtensionBuilderOutput(
      [("A", EntityRef(true, "User", user)), ("B", EntityRef(true, "Doc", doc))], None, None, None);
    var second := ExtensionBuilderOutput(
      [("B", EntityRef(true, "User", user)), ("A", EntityRef(true, "Doc", doc))], None, None, None);
    assert EntityNames(first.entities) == ["User", "Doc"] == EntityNames(second.entities);
    var s1 := ImplementationStatement(pkg, first);
    var s2 := ImplementationStatement(pkg, second);
    assert first.entities[0].0 == "A" && s1.entities["A"] == EntityBinding("User", user);
    assert second.entities[1].0 == "A" && s2.entities["A"] == EntityBinding("Doc", doc);
    assert "User" != "Doc" by { assert |"User"| != |"Doc"|; }
  }

  // ---------------------------------------------------------------------------------------------
  // Order of contributions

  /** Two contributions to one event whose payloads have no field in common give the same payload
      whichever is merged first. */
  lemma {:induction false} EventMergeCommutes(base: EventDefinition, x: EventDefinition, y: EventDefinition)
    requires x.schema.Keys !! y.schema.Keys
    ensures MergeEvents(MergeEvents(base, x), y).schema == MergeEvents(MergeEvents(base, y), x).schema
  {
    MergeShapeCommutes(base.schema, x.schema, y.schema);
  }

  /** The same for actions, on both input and output. */
  lemma {:induction false} ActionMergeCommutes(base: ActionDefinition, x: ActionDefinition, y: ActionDefinition)
    requires x.input.Keys !! y.input.Keys && x.output.Keys !! y.output.Keys
    ensures MergeActions(MergeActions(base, x), y).input == MergeActions(MergeActions(base, y), x).input
    ensures MergeActions(MergeActions(base, x), y).output == MergeActions(MergeActions(base, y), x).output
  {
    MergeShapeCommutes(base.input, x.input, y.input);
    MergeShapeCommutes(base.output, x.output, y.output);
  }

  /** One name of the folded event table: its payload does not depend on which interface came first. */
  lemma {:induction false} MergedEventCommutes(base: map<string, EventDefinition>, x: map<string, EventDefinition>,
                                               y: map<string, EventDefinition>, k: string)
    requires k in x && k in y ==> x[k].schema.Keys !! y[k].schema.Keys
    requires k in base || k in x || k in y
    ensures MergeRecords(MergeRecords(base, x, MergeEvents), y, MergeEvents)[k].schema
         == MergeRecords(MergeRecords(base, y, MergeEvents), x, MergeEvents)[k].schema
  {
    if k in x && k in y {
      if k in base {
        EventMergeCommutes(base[k], x[k], y[k]);
      } else {
        MergeShapeCommutes(map[], x[k].schema, y[k].schema);
        assert MergeShape(map[], x[k].schema) == x[k].schema;
        assert MergeShape(map[], y[k].schema) == y[k].schema;
      }
    }
  }

  /** Folding two interfaces' event tables into an integration's: when every event both contribute
      has payloads with no field in common, the resulting table has the same names and the same
      payloads whichever interface is extended first. Titles and descriptions are not covered: for
      them the later contribution wins. */
  lemma EventTablesCommute(base: map<string, EventDefinition>,
                           x: map<string, EventDefinition>, y: map<string, EventDefinition>)
    requires forall k :: k in x && k in y ==> x[k].schema.Keys !! y[k].schema.Keys
    ensures var xy := MergeRecords(MergeRecords(base, x, MergeEvents), y, MergeEvents);
      var yx := MergeRecords(MergeRecords(base, y, MergeEvents), x, MergeEvents);
      && xy.Keys == yx.Keys
      && forall k :: k in xy ==> xy[k].schema == yx[k].schema
  {
    var xy := MergeRecords(MergeRecords(base, x, MergeEvents), y, MergeEvents);
    forall k | k in xy
      ensures xy[k].schema == MergeRecords(MergeRecords(base, y, MergeEvents), x, MergeEvents)[k].schema
    {
      MergedEventCommutes(base, x, y, k);
    }
  }

  // ---------------------------------------------------------------------------------------------
  // Worked examples

  function SentimentInterface(): InterfacePackage
  {
    var classify := ActionDefinition(None, None, map["item" := Ref("Item")], map["label" := Scalar("string")]);
    InterfacePackage(None, InterfaceDefinition("Sentiment", "1.0.0",
      Some(map["Item" := EntityDefinition(None, None, Object(map[]))]), Some([("classify", classify)]), None, None))
  }

  /** Interface `Sentiment` (entity `Item`, action `classify({item: Item}) -> {label}`) extended by an
      integration that binds `Item` to its `Document` entity and renames `classify` to `analyze`: the
      statement is stored under `Sentiment<Document>` and records the alias. */
  lemma SentimentStatement(document: Schema)
    ensures var out := ExtensionBuilderOutput([("Item", EntityRef(true, "Document", document))],
        Some(map["classify" := Some("analyze")]), None, None);
      var statement := ImplementationStatement(SentimentInterface(), out);
      && BindingKey(SentimentInterface().definition.name, EntityNames(out.entities)) == "Sentiment<Document>"
      && statement.actions == map["classify" := "analyze"]
      && EntitySchemas(statement.entities) == map["Item" := document]
  {
    var out := ExtensionBuilderOutput([("Item", EntityRef(true, "Document", document))],
      Some(map["classify" := Some("analyze")]), None, None);
    var classify := ActionDefinition(None, None, map["item" := Ref("Item")], map["label" := Scalar("string")]);
    assert EntityNames(out.entities) == ["Document"];
    assert [("classify", classify)][0].0 == "classify";
    assert out.entities[0].0 == "Item";
  }

  /** Under that statement the integration gains `analyze`, taking `{item: Document}` and returning
      `{label: string}`, and no other action. */
  lemma SentimentResolved(document: Schema, statement: InterfaceImplementationStatement)
    requires EntitySchemas(statement.entities) == map["Item" := document]
    requires statement.actions == map["classify" := "analyze"]
    ensures ResolvedActions(SentimentInterface(), statement).Keys == {"analyze"}
    ensures ResolvedActions(SentimentInterface(), statement)["analyze"].input == map["item" := document]
    ensures ResolvedActions(SentimentInterface(), statement)["analyze"].output == map["label" := Scalar("string")]
  {
    var defs := SentimentInterface().definition.actions.value;
    ResolvedActionsPlacement(SentimentInterface(), statement, 0);
    assert NewNames(defs, statement.actions) == {"analyze"};
  }

  /** A builder that binds no entity and renames no event yields a statement under which every event
      keeps its name and nothing is substituted. */
  lemma UnboundUnaliased(pkg: InterfacePackage, out: ExtensionBuilderOutput)
    requires out.entities == [] && out.events.None?
    ensures ImplementationStatement(pkg, out).entities == map[]
    ensures forall k :: NewName(ImplementationStatement(pkg, out).events, k) == k
  {
  }

  /** An interface with a single event, under a statement that binds nothing and keeps the event's
      name, contributes exactly that event, unchanged. */
  lemma {:induction false} SingleEventResolved(pkg: InterfacePackage, statement: InterfaceImplementationStatement)
    requires pkg.definition.events.Some? && |pkg.definition.events.value| == 1
    requires statement.entities == map[]
    requires NewName(statement.events, pkg.definition.events.value[0].0) == pkg.definition.events.value[0].0
    ensures var e := pkg.definition.events.value[0];
      var r := ResolvedEvents(pkg, statement);
      r.Keys == {e.0} && r[e.0] == e.1
  {
    var defs := pkg.definition.events.value;
    ResolvedEventsPlacement(pkg, statement, 0);
    assert NewNames(defs, statement.events) == {defs[0].0};
    var env := EntitySchemas(statement.entities);
    forall k | k in defs[0].1.schema ensures Deref(defs[0].1.schema[k], env) == defs[0].1.schema[k] {
      DerefUnbound(defs[0].1.schema[k], env);
    }
  }

  /** Two interfaces each contributing an unaliased event `onUpdate`, one with payload `{id}` and one
      with `{timestamp}`, extended one after the other into an integration without events, under
      statements that bind nothing and rename nothing (`UnboundUnaliased`): its `onUpdate` then
      carries both fields. */
  lemma OnUpdateScenario(first: InterfacePackage, second: InterfacePackage,
                         firstStatement: InterfaceImplementationStatement,
                         secondStatement: InterfaceImplementationStatement)
    requires first.definition.events == Some([("onUpdate", EventDefinition(None, None, map["id" := Scalar("string")]))])
    requires second.definition.events == Some([("onUpdate", EventDefinition(None, None, map["timestamp" := Scalar("number")]))])
    requires firstStatement.entities == map[] && NewName(firstStatement.events, "onUpdate") == "onUpdate"
    requires secondStatement.entities == map[] && NewName(secondStatement.events, "onUpdate") == "onUpdate"
    ensures var afterFirst := MergeRecords(map[], ResolvedEvents(first, firstStatement), MergeEvents);
      var afterSecond := MergeRecords(afterFirst, ResolvedEvents(second, secondStatement), MergeEvents);
      && afterSecond.Keys == {"onUpdate"}
      && afterSecond["onUpdate"].schema.Keys == {"id", "timestamp"}
      && afterSecond["onUpdate"].schema["id"] == Scalar("string")
      && afterSecond["onUpdate"].schema["timestamp"] == Scalar("number")
  {
    var e1 := EventDefinition(None, None, map["id" := Scalar("string")]);
    var e2 := EventDefinition(None, None, map["timestamp" := Scalar("number")]);
    SingleEventResolved(first, firstStatement);
    SingleEventResolved(second, secondStatement);
    assert ResolvedEvents(first, firstStatement) == map["onUpdate" := e1];
    assert ResolvedEvents(second, secondStatement) == map["onUpdate" := e2];
    OnUpdateFold(e1, e2);
  }

  /** Folding `{id}` and then `{timestamp}` under one event name into an empty table. */
  lemma OnUpdateFold(e1: EventDefinition, e2: EventDefinition)
    requires e1 == EventDefinition(None, None, map["id" := Scalar("string")])
    requires e2 == EventDefinition(None, None, map["timestamp" := Scalar("number")])
    ensures var afterFirst := MergeRecords(map[], map["onUpdate" := e1], MergeEvents);
      var afterSecond := MergeRecords(afterFirst, map["onUpdate" := e2], MergeEvents);
      && afterSecond.Keys == {"onUpdate"}
      && afterSecond["onUpdate"].schema.Keys == {"id", "timestamp"}
      && afterSecond["onUpdate"].schema["id"] == Scalar("string")
      && afterSecond["onUpdate"].schema["timestamp"] == Scalar("number")
  {
    var afterFirst := MergeRecords(map[], map["onUpdate" := e1], MergeEvents);
    assert afterFirst.Keys == {"onUpdate"} && afterFirst["onUpdate"] == e1;
    var afterSecond := MergeRecords(afterFirst, map["onUpdate" := e2], MergeEvents);
    assert afterSecond.Keys == {"onUpdate"} && afterSecond["onUpdate"] == MergeEvents(e1, e2);
    var payload := afterSecond["onUpdate"].schema;
    assert payload == e1.schema + e2.schema;
    assert "id" != "timestamp" by { assert |"id"| != |"timestamp"|; }
    assert "id" !in e2.schema && "timestamp" in e2.schema;
  }
}
