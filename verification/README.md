# Interface-contract resolution in the Botpress SDK and CLI

This project models the part of the Botpress SDK and CLI that ties generic interfaces to concrete
integrations and bots:

- `IntegrationDefinition.extend` instantiates an interface package (placeholder entities plus
  action, event and channel templates) against an integration's own entities. It refuses an entity
  schema that does not carry the integration's brand. It records an implementation statement under a
  binding key (`name` or `name<E1,E2>`), dereferences every action, event and message schema against
  the bound entities, renames members through the builder's aliases, and folds the result into the
  integration's tables. When a name is already present there, the two definitions are merged
  structurally.
- `BotDefinition.add` registers integrations (with their configuration) and interface
  dependencies in the bot's tables.
- `validateBotDefinition` refuses non-camelCase action, event and state names. It also refuses a bot
  that depends on an interface no installed integration implements, matching exactly on name and
  version. It stops at the first problem.
- The two action proxies turn `actions[name][method]` into the action type `prefix:suffix`.
- `safePush` and `unique` are the array helpers.

Modules:

| file | module | contents |
|---|---|---|
| wrappers.dfy | Wrappers | `Option` (for `undefined` and `??`), `Result`, `Outcome` |
| records.dfy | Records | JavaScript objects as ordered records, assignment, `mergeRecords` |
| strings.dfy | Strings | `join` and when it can be split back |
| schemas.dfy | Schemas | schemas as trees with placeholder references, `dereference`, `merge` |
| integration.dfy | Integration | the statement, `extend`, `_resolveInterface` and its loops, the merge helpers |
| bot.dfy | Bot | `BotDefinition` and `add` |
| validate_bot.dfy | ValidateBot | `validateBotDefinition` |
| interface_extensions.dfy | InterfaceExtensions | the table both proxies read |
| plugin_action_proxy.dfy | PluginActionProxy | the plugin proxy's action name |
| bot_action_proxy.dfy | BotActionProxy | the bot proxy's action name, and how it meets `extend` |
| array_utils.dfy | ArrayUtils | `safePush`, `unique` |

Tables are ordered where the code observes insertion order:

- the builder's entities fix the binding key;
- an interface's members are visited in order, and a later member overwrites an earlier one aliased
  to the same name;
- the bot's tables give the order of the error lists and decide which dependency is reported first.

These are `Record`s, sequences of `(key, value)` pairs with distinct keys. Every other table is a
`map`. The integration's tables are `var` fields of the class `Integration.IntegrationDefinition`, and
the bot's `integrations` and `interfaces` are `var` fields of `Bot.BotDefinition`. The methods that
update them state the whole new state in their `ensures`.

Points where the code does something other than one might expect; the model follows the code:

- The binding key joins the entity names in the order the builder returned them, not in the
  interface's declaration order.
- An alias given for a key that is not a member of the interface is ignored, with no error.
- The key records the entity names, not which placeholder each name binds. Two different bindings
  whose names come in the same builder order share a key (`Integration.DistinctBindingsShareKey`), and
  the later `extend` replaces the earlier statement, while the members the earlier one contributed
  stay in the integration's tables.
- Within one `extend`, two members aliased to the same name overwrite each other in the local
  table: the later one wins and nothing is merged. Only a collision with the integration's existing
  tables goes through the merge helpers.
- `_resolveInterface` writes each member's name back into the statement already stored under the
  binding key. That name is always the one `extend` put there, so the stored statement does not
  change (`Integration.WrittenBackUnchanged`).

## Model

| member | source | states |
|---|---|---|
| Integration.IntegrationDefinition.Extend | packages/sdk/src/integration/definition/index.ts:185-254 | An unbranded entity gives the error naming the first such key in builder order, and nothing changes. Otherwise `interfaces` (created if absent) gains the statement under the binding key and keeps every other entry. `actions`, `events` and `channels` become the old tables (or empty) folded with the resolved members through the merge helpers, and the call returns the definition itself. |
| Integration.IntegrationDefinition.constructor | packages/sdk/src/integration/definition/index.ts:155-183 | Each field holds the prop of the same name. |
| Integration.IntegrationDefinition.StoreStatement | packages/sdk/src/integration/definition/index.ts:249 | The statement is stored under the key; other keys are unchanged. |
| Integration.IntegrationDefinition.ResolveInterface | packages/sdk/src/integration/definition/index.ts:256-305 | Each table becomes the old table folded with the interface's resolved members, using that table's merge helper. The statement comes back with every member's name written back. |
| Integration.IntegrationDefinition.FoldActions | packages/sdk/src/integration/definition/index.ts:300 | `actions` becomes `mergeRecords(actions ?? {}, contributed, _mergeActions)`. |
| Integration.IntegrationDefinition.FoldChannels | packages/sdk/src/integration/definition/index.ts:301 | The same for `channels` with `_mergeChannels`. |
| Integration.IntegrationDefinition.FoldEvents | packages/sdk/src/integration/definition/index.ts:302 | The same for `events` with `_mergeEvents`. |
| Integration.FirstUnbranded | packages/sdk/src/integration/definition/index.ts:201-207 | None iff every builder entity is branded. Otherwise it is the key of the first unbranded entity, every earlier one being branded. |
| Integration.ExtendErrorMessage | packages/sdk/src/integration/definition/index.ts:204-206 | The message names both the interface and the unbranded entity key. |
| Integration.EntityNames | packages/sdk/src/integration/definition/index.ts:212-217 | The concrete entity names, one per builder entity, in builder order. |
| Integration.BindingKey | packages/sdk/src/integration/definition/index.ts:244-247 | With no entity names the key is the interface name. Otherwise it is the interface name, `<`, the names joined with `,`, and `>`. |
| Integration.AliasOf | packages/sdk/src/integration/definition/index.ts:221 | The builder's alias when it gives one for the key, otherwise the key itself. |
| Integration.MemberAliases | packages/sdk/src/integration/definition/index.ts:219-232 | An alias table with exactly the interface's member keys, each mapped to its alias. |
| Integration.ImplementationStatement | packages/sdk/src/integration/definition/index.ts:212-242 | The statement has the package's id, name and version. It binds each builder entity key to that entity's name and schema. Its action, event and channel tables have exactly the interface's member keys, each mapped to the builder's alias or to itself. |
| Integration.EntitySchemas | packages/sdk/src/integration/definition/index.ts:263 | The substitution has exactly the statement's placeholders. |
| Integration.NewName | packages/sdk/src/integration/definition/index.ts:270 | The alias the statement gives a member key when it has one, otherwise the key itself. |
| Integration.Renamed | packages/sdk/src/integration/definition/index.ts:270-271 | The table of members stored under their new names has exactly those new names as keys. |
| Integration.ResolvedActions | packages/sdk/src/integration/definition/index.ts:266-277 | The actions an interface contributes are keyed by exactly the new names of its actions. |
| Integration.ResolvedEvents | packages/sdk/src/integration/definition/index.ts:280-285 | The same for events. |
| Integration.ResolvedChannels | packages/sdk/src/integration/definition/index.ts:287-298 | The same for channels. |
| Integration.WrittenBackStatement | packages/sdk/src/integration/definition/index.ts:266-298 | The statement keeps its id, name, version and entities. Each alias table gains the interface's member keys, keeps every existing entry, and maps a new key to itself. |
| Integration.ResolveTables | packages/sdk/src/integration/definition/index.ts:259-298 | The three loops compute the resolved action, event and channel tables and the written-back statement. |
| Integration.WrittenBack | packages/sdk/src/integration/definition/index.ts:276 | After the loop, the alias table covers its old keys and every visited member key. |
| Integration.ResolveChannel | packages/sdk/src/integration/definition/index.ts:288-296 | A resolved channel keeps its title, its description and its message names. Each message schema is dereferenced. |
| Integration.DerefActions | packages/sdk/src/integration/definition/index.ts:266-275 | Each action, in order and under its own key, with input and output dereferenced. |
| Integration.DerefEvents | packages/sdk/src/integration/definition/index.ts:280-283 | Each event, in order, with its payload dereferenced. |
| Integration.DerefChannels | packages/sdk/src/integration/definition/index.ts:288-296 | Each channel, in order, resolved. |
| Integration.RenamedStep | packages/sdk/src/integration/definition/index.ts:271 | Storing one more member under its new name extends the table of the members before it. |
| Integration.WrittenBackStep | packages/sdk/src/integration/definition/index.ts:270-276 | The name read from the partly written-back table is the one the statement gave, because each member key is visited once. Writing it back extends the table by that key. |
| Integration.ResolveActionsLoop | packages/sdk/src/integration/definition/index.ts:266-277 | The local table is the members stored one after another under their new names, a later one overwriting an earlier one. The statement's action aliases come out with every member's name written back. |
| Integration.ResolveEventsLoop | packages/sdk/src/integration/definition/index.ts:280-285 | The same for events. |
| Integration.ResolveMessagesLoop | packages/sdk/src/integration/definition/index.ts:289-294 | The messages keep their names, and each schema is dereferenced. |
| Integration.ResolvedMessagesAre | packages/sdk/src/integration/definition/index.ts:289-294 | A table with the messages' names and dereferenced schemas is the resolved message table. |
| Integration.ResolveChannelsLoop | packages/sdk/src/integration/definition/index.ts:287-298 | The same as the action loop, for channels with resolved messages. |
| Integration.Spread | packages/sdk/src/integration/definition/index.ts:309-310 | In `{...a, ...b}`, the later object's field wins when it is present. |
| Integration.MergeActions | packages/sdk/src/integration/definition/index.ts:307-318 | Title and description come from the later definition when present. Input and output are the field unions, the later field winning. |
| Integration.MergeEvents | packages/sdk/src/integration/definition/index.ts:320-326 | Title and description come from the later definition when present; the payload is the field union. |
| Integration.MergeMessage | packages/sdk/src/integration/definition/index.ts:337-341 | Only the merged schema is kept. |
| Integration.MergeChannels | packages/sdk/src/integration/definition/index.ts:328-335 | The later metadata wins. The message tables are united: a message present on both sides is merged with `_mergeMessage`, one present on one side only is kept. |
| Integration.WrittenBackCovered | packages/sdk/src/integration/definition/index.ts:276 | Writing back names already in the alias table changes nothing. |
| Integration.WrittenBackUnchanged | packages/sdk/src/integration/definition/index.ts:219-242 | The statement `_resolveInterface` writes names back into is the statement `extend` built. |
| Integration.RenamedLastWins | packages/sdk/src/integration/definition/index.ts:271 | A member that no later member collides with is stored, unchanged, under its new name. |
| Integration.ResolvedActionsPlacement | packages/sdk/src/integration/definition/index.ts:266-277 | The contributed actions are exactly the new names. An action no later one collides with appears under its alias, with input and output dereferenced against the bound entity schemas. |
| Integration.ResolvedEventsPlacement | packages/sdk/src/integration/definition/index.ts:280-285 | The same for events and their payloads. |
| Integration.ResolvedChannelsPlacement | packages/sdk/src/integration/definition/index.ts:287-298 | The same for channels. Only the channel is renamed, and its messages keep their names. |
| Integration.BindingKeyInjective | packages/sdk/src/integration/definition/index.ts:244-247 | For entity names without a comma, two keys of one interface are equal iff the entity-name sequences are equal. |
| Integration.DistinctBindingsShareKey | packages/sdk/src/integration/definition/index.ts:212-249 | Binding `A` to `User` and `B` to `Doc`, or `B` to `User` and `A` to `Doc`, gives the same key but statements with different entities. |
| Integration.EventMergeCommutes | packages/sdk/src/integration/definition/index.ts:320-326 | Two contributions to an event with no payload field in common give the same payload in either order. |
| Integration.ActionMergeCommutes | packages/sdk/src/integration/definition/index.ts:307-318 | The same for action input and output. |
| Integration.MergedEventCommutes | packages/sdk/src/integration/definition/index.ts:302 | For one name of a folded event table, the payload does not depend on which contribution came first. |
| Integration.EventTablesCommute | packages/sdk/src/integration/definition/index.ts:302 | Folding two interfaces' events whose shared events have disjoint payload fields gives the same names and payloads in either order. |
| Integration.SentimentStatement | packages/sdk/src/integration/definition/index.ts:212-247 | Binding `Item` to `Document` and aliasing `classify` to `analyze` gives the key `Sentiment<Document>` and records the alias and the binding. |
| Integration.SentimentResolved | packages/sdk/src/integration/definition/index.ts:266-277 | Under that statement, the integration gains exactly `analyze`, taking `{item: Document}` and returning `{label: string}`. |
| Integration.UnboundUnaliased | packages/sdk/src/integration/definition/index.ts:219-238 | With no entities and no event aliases, the statement binds nothing and every event keeps its name. |
| Integration.SingleEventResolved | packages/sdk/src/integration/definition/index.ts:280-285 | A single event, under a statement that binds nothing and keeps its name, is contributed unchanged. |
| Integration.OnUpdateScenario | packages/sdk/src/integration/definition/index.ts:300-326 | Two interfaces each contribute `onUpdate`, one with `{id}` and one with `{timestamp}`. The integration's `onUpdate` then carries both fields with their types. |
| Integration.OnUpdateFold | packages/sdk/src/integration/definition/index.ts:300-326 | Folding `onUpdate` with `{id}` and then with `{timestamp}` into an empty event table gives one event carrying both fields with their types. |
| Schemas.DerefShape | packages/sdk/src/integration/definition/index.ts:267-268 | Dereferencing keeps an object schema's field names. |
| Schemas.Deref | packages/sdk/src/integration/definition/index.ts:267 | A bound placeholder becomes its schema and an unbound one stays. Scalars are unchanged, an object keeps its field names, and an array stays an array. |
| Schemas.MergeShape | packages/sdk/src/integration/definition/index.ts:312 | A merged object has the fields of both; a field of the second wins. |
| Schemas.DerefUnbound | packages/sdk/src/integration/definition/index.ts:267 | A schema mentioning no bound placeholder is unchanged by dereferencing. |
| Schemas.DerefRefs | packages/sdk/src/integration/definition/index.ts:267 | With concrete bindings, exactly the unbound placeholders survive dereferencing. |
| Schemas.DerefShapeRefs | packages/sdk/src/integration/definition/index.ts:267-268 | With concrete bindings, an object schema keeps exactly its unbound placeholders. |
| Schemas.DerefCloses | packages/sdk/src/integration/definition/index.ts:267 | With every placeholder bound to a concrete schema, nothing is left to substitute. |
| Schemas.DerefIdempotent | packages/sdk/src/integration/definition/index.ts:267 | Dereferencing twice against concrete bindings is dereferencing once. |
| Schemas.DerefShapeIdempotent | packages/sdk/src/integration/definition/index.ts:267-268 | The same for an object schema. |
| Schemas.DerefMerge | packages/sdk/src/integration/definition/index.ts:312 | Merging then dereferencing is dereferencing then merging. |
| Schemas.MergeShapeCommutes | packages/sdk/src/integration/definition/index.ts:312 | Two contributions with disjoint fields merge into a base in either order. |
| Records.KeySeq | packages/cli/src/sdk/validate-bot.ts:39 | `Object.keys` lists the keys in insertion order. |
| Records.Values | packages/cli/src/sdk/validate-bot.ts:25-27 | `Object.values` lists the values in insertion order. |
| Records.ToMap | packages/sdk/src/bot/definition.ts:144 | The record as a map: the same keys, each with its value. |
| Records.Put | packages/sdk/src/bot/definition.ts:144 | Assignment keeps the position of an existing key and appends a new one. The value under the key is replaced and no other value changes. |
| Records.MergeRecords | packages/sdk/src/integration/definition/index.ts:300-302 | The union of the keys: a key on one side keeps its value, a key on both sides gets `f(a[k], b[k])`. |
| Records.PutExisting | packages/sdk/src/bot/definition.ts:144 | Assigning an existing key keeps the key order and replaces only that value. |
| Records.PutNew | packages/sdk/src/bot/definition.ts:144 | Assigning a new key appends it and adds only that value. |
| Records.IndexOfTail | packages/cli/src/sdk/validate-bot.ts:39 | Past the first key, every key's position in the record is one more than in the rest. |
| Records.IndexOfTailAt | packages/cli/src/sdk/validate-bot.ts:39 | The same for one key. |
| Strings.Join | packages/sdk/src/integration/definition/index.ts:247 | The joined string contains every part, and joining nothing gives the empty string. |
| Strings.JoinHead | packages/sdk/src/integration/definition/index.ts:247 | The first part of a comma-joined list runs up to the first comma. |
| Strings.JoinInjective | packages/sdk/src/integration/definition/index.ts:247 | A comma-joined list of comma-free parts can be split back. |
| Bot.InstanceOf | packages/sdk/src/bot/definition.ts:144-149 | The stored entry takes `configurationType` and `configuration` from the configuration. `enabled` comes from the package when the package has that field, otherwise from the configuration. |
| Bot.BotDefinition.constructor | packages/sdk/src/bot/definition.ts:113-124 | Each field holds the prop of the same name. |
| Bot.BotDefinition.Add | packages/sdk/src/bot/definition.ts:126-136 | An integration package goes to `integrations` and an interface package to `interfaces`; the other table is unchanged. Any other package changes nothing. The definition itself is returned. |
| Bot.BotDefinition.AddIntegration | packages/sdk/src/bot/definition.ts:138-151 | `integrations` (created if absent) gets the entry under the package's name, and only that key changes. |
| Bot.BotDefinition.AddInterface | packages/sdk/src/bot/definition.ts:153-160 | `interfaces` (created if absent) gets the package under its name, and only that key changes. |
| Bot.PutReplacesOnlyItsKey | packages/sdk/src/bot/definition.ts:138-160 | Storing under a name adds that name and replaces its value. Every other entry stays as it was, and a new name goes last. |
| ValidateBot.NonCamelCaseKeys | packages/cli/src/sdk/validate-bot.ts:38-39 | The listed names are exactly the table's keys that are not camelCase. Each is listed once, in the table's key order. |
| ValidateBot.NonCamelCaseMembers | packages/cli/src/sdk/validate-bot.ts:38-39 | The first key, when it is not camelCase, joins the names found in the rest of the table. |
| ValidateBot.ShiftedPositions | packages/cli/src/sdk/validate-bot.ts:38-39 | Keys found in the rest of a table sit one position further in the whole table. |
| ValidateBot.NonCamelCaseOrder | packages/cli/src/sdk/validate-bot.ts:38-39 | Putting the first key in front of a list ordered by position keeps the list ordered. |
| ValidateBot.ImplementsInterface | packages/cli/src/sdk/validate-bot.ts:41-46 | An integration with no interfaces implements nothing. What implementing means, a statement with exactly the dependency's name and version, is stated by `ValidateBot.ImplementsNeedsNameAndVersion`. |
| ValidateBot.Implemented | packages/cli/src/sdk/validate-bot.ts:27-28 | With no integrations installed, no dependency is implemented. `ValidateBot.FindImplementation` states that it holds iff some installed integration implements the dependency. |
| ValidateBot.FindImplementation | packages/cli/src/sdk/validate-bot.ts:28 | None iff no installed integration implements the dependency. Otherwise it is the position of the first one that does. |
| ValidateBot.InterfaceRef | packages/cli/src/sdk/validate-bot.ts:30 | The reference is the interface name, `@`, and the version. |
| ValidateBot.InterfaceRefInjective | packages/cli/src/sdk/validate-bot.ts:30 | When names contain no `@`, two dependencies get the same reference iff they have the same name and version. |
| ValidateBot.NotCamelCaseMessage | packages/cli/src/sdk/validate-bot.ts:9-23 | The message names the kind of name and every offending name. |
| ValidateBot.UnimplementedMessage | packages/cli/src/sdk/validate-bot.ts:31-33 | The message names the dependency's reference. |
| ValidateBot.ErrorMessage | packages/cli/src/sdk/validate-bot.ts:9-33 | A camelCase error's message names the kind and every offending name. An unimplemented-interface message names the reference. |
| ValidateBot.CheckNames | packages/cli/src/sdk/validate-bot.ts:8-23 | One table's check passes iff all its keys are camelCase. Otherwise it fails with the full, non-empty list of offending names. |
| ValidateBot.CheckDependencies | packages/cli/src/sdk/validate-bot.ts:25-35 | Passes iff every dependency is implemented. Otherwise it fails naming the first unimplemented dependency as `name@version`. |
| ValidateBot.FirstUnimplemented | packages/cli/src/sdk/validate-bot.ts:27-34 | None iff every dependency is implemented. Otherwise it is the first unimplemented dependency in declaration order. |
| ValidateBot.FirstUnimplementedNone | packages/cli/src/sdk/validate-bot.ts:27-34 | When the first dependency is implemented, all are iff the rest are. |
| ValidateBot.FirstUnimplementedSome | packages/cli/src/sdk/validate-bot.ts:27-34 | When the first dependency is implemented, the first unimplemented one among the rest is the first overall. |
| ValidateBot.ValidateBotDefinition | packages/cli/src/sdk/validate-bot.ts:5-36 | Non-camelCase action names fail first with the full list, then event names, then state names. A camelCase failure always carries a non-empty list. Validation passes iff all names are camelCase and every dependency is implemented. When all names are camelCase and some dependency is not implemented, it fails naming the first such dependency as `name@version`. |
| ValidateBot.ExtendedIntegrationImplements | packages/cli/src/sdk/validate-bot.ts:41-46 | An integration carrying the statement `extend` built for an interface implements it, whatever the binding key. |
| ValidateBot.ImplementsNeedsNameAndVersion | packages/cli/src/sdk/validate-bot.ts:41-46 | An integration implements a dependency iff one of its statements, whatever its key, has both the name and the version. |
| ValidateBot.VersionMismatchRefused | packages/cli/src/sdk/validate-bot.ts:27-34 | Depending on `x@1.0.0`, with only `x@2.0.0` and `y@1.0.0` installed, reports `x@1.0.0`. |
| InterfaceExtensions.DefaultExtension | packages/sdk/src/bot/action-proxy/proxy.ts:39-46 | The default extension for a missing name has that name, version `0.0.0` and empty tables. |
| InterfaceExtensions.ActionSuffix | packages/sdk/src/bot/action-proxy/proxy.ts:49 | The alias for the method when the extension has one, otherwise the method name. |
| PluginActionProxy.FullActionName | packages/sdk/src/plugin/action-proxy/proxy.ts:40-52 | An unregistered name gives `name:method`. A registered one gives the extension's name, `:`, and the alias or the method name. |
| BotActionProxy.FullActionName | packages/sdk/src/bot/action-proxy/proxy.ts:38-50 | The same over the `interfaces` argument. |
| BotActionProxy.ProxyTargetsResolvedAction | packages/sdk/src/bot/action-proxy/proxy.ts:38-50 | When the registered extension carries the statement's aliases, calling an interface action targets the builder's alias. That name is one of the actions `extend` added to the integration. |
| BotActionProxy.ProxiesAgree | packages/sdk/src/plugin/action-proxy/proxy.ts:40-52 | The plugin proxy and the bot proxy compute the same name from the same table. |
| ArrayUtils.SafePush | packages/sdk/src/utils/array-utils.ts:1 | `[v]` for a missing array. Otherwise the array followed by `v`, one longer and with the array as its prefix. |
| ArrayUtils.Unique | packages/sdk/src/utils/array-utils.ts:2 | No duplicates, the same elements as the input both ways, and no longer than the input. |
| ArrayUtils.FirstIndex | packages/sdk/src/utils/array-utils.ts:2 | The position of the first occurrence. |
| ArrayUtils.UniqueFirstOccurrenceOrder | packages/sdk/src/utils/array-utils.ts:2 | The elements come in the order of their first occurrence in the input, as a `Set` keeps them. |
| ArrayUtils.FirstIndexPrefix | packages/sdk/src/utils/array-utils.ts:2 | Appending does not move the first occurrence of an element already present. |
| ArrayUtils.FirstIndexNew | packages/sdk/src/utils/array-utils.ts:2 | A new element first occurs where it is appended. |
| ArrayUtils.UniqueOfDistinct | packages/sdk/src/utils/array-utils.ts:2 | A sequence without duplicates is its own `unique`. |
| ArrayUtils.UniqueIdempotent | packages/sdk/src/utils/array-utils.ts:2 | `unique(unique(a)) == unique(a)`. |

## Left out

- The schema library: `dereference` and `merge`. Schemas are trees whose leaves may be placeholder references. Dereferencing substitutes the bound schema, and merging two object schemas unites their fields, the second winning. Other schema kinds and options (optional fields, unions, refinements, descriptions) are not modelled.
- Branded schemas: `createStore`, `isBranded` and `getName`. The builder's output is a parameter: each entity is a flag saying whether it is branded, the entity name its brand records, and its schema. The builder callback itself and the store it receives are not modelled.
- `utils.records.mergeRecords`, `mapValues` and `pairs`. `Records.MergeRecords` states the semantics the engine relies on: the union of the keys, with the merge function applied to a key present on both sides.
- `utils.casing.is.camelCase` is the parameter `isCamelCase` of `ValidateBot.ValidateBotDefinition`.
- Thrown errors become `Failure`/`Fail` values. The message texts are `Integration.ExtendErrorMessage` and `ValidateBot.ErrorMessage`.
- The JavaScript `Proxy` objects of both action proxies, and the asynchronous `client.callAction` with its response. Only the action name is modelled.
- Inherited object properties: tables are maps with only their own keys. A member or name that collides with a property of `Object.prototype` (such as `constructor`) is not modelled.
- The descriptive fields the engine only copies (icons, readmes, secrets, states, configuration, users, identifiers, schema titles of entities). On the definitions, only the title and the description are kept, to show which side a merge keeps.
- The message loop walks a channel's messages in some order, as a loop over the set of names. The order is not observable, because messages keep their names.
- Integration.BindingKeyInjective: stated only for entity names without a comma. Names with a comma can give two different bindings the same key (`A,B` alone and `A` then `B`).
- Integration.IntegrationDefinition.Extend: the statement is a value, not a shared object. `_resolveInterface` updates in place the object stored under the binding key. The model stores the updated statement again, and `Integration.WrittenBackUnchanged` shows that this statement equals the one stored before.
- Bot.BotDefinition.Add: the `type` field of a package is the constructor of `Bot.Package`, and a package of any other type is `OtherPkg`. An integration package must come with its configuration, as the overload signature demands.
- Records.KeySeq: JavaScript lists array-index keys (canonical numeric strings such as `"0"` or `"2"`) first, in ascending numeric order, and only then the other keys in insertion order. The model keeps pure insertion order for every key.
- Records.Values: the same ordering of array-index keys is not captured.
- Records.PutNew: the same gap as `Records.Put` below; a new array-index key is not appended in JavaScript.
- Records.Put: assigning a new array-index key does not append it in JavaScript. The model always appends. With array-index keys, the model can therefore differ from the code in the order of `Integration.EntityNames` and so in `Integration.BindingKey`. It can also differ in the order the resolution loops visit members, and so in which of two members aliased to the same name wins. It can also differ in the order of `ValidateBot.NonCamelCaseKeys` and in which dependency `ValidateBot.FirstUnimplemented` reports.
- Integration.IntegrationDefinition.constructor: the class keeps `props` as a public field (packages/sdk/src/integration/definition/index.ts:156), and `interfaces` is the very object `props.interfaces` (index.ts:182). An entry `extend` stores (index.ts:249) therefore also shows in `props.interfaces` when that table came from the props. A table created lazily, and the reassigned `actions`, `events` and `channels` (index.ts:300-302), leave `props` stale. The model has no `props` field and does not capture this sharing.
- Bot.BotDefinition.constructor: in the same way `props` is kept (packages/sdk/src/bot/definition.ts:113), and `integrations` and `interfaces` share the props' objects (definition.ts:114-115). The writes of `add` (definition.ts:144, 158) then show in `props`. The model has no `props` field and does not capture this sharing.
- Schemas.Deref: an unbound placeholder is kept as a reference (`Schemas.DerefRefs` says which). Whether the schema library reports unbound placeholders, or fails on a merge, is not modelled: `Schemas.Deref` and `Schemas.MergeShape` are total. Such a failure inside `_resolveInterface` would come after the statement is stored (packages/sdk/src/integration/definition/index.ts:249), leaving it stored without its members folded in, a state the all-or-nothing contract of `Integration.IntegrationDefinition.Extend` does not describe.
- The type-level files, code generation, the build configuration, the personality plugin and `resolve-bot-interfaces.ts` are not part of this model.
