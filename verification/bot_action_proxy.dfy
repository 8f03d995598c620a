/** The action type a bot's action proxy calls for `actions[integrationOrInterfaceName][methodName]`,
    and how it meets the tables `extend` builds. */
module BotActionProxy {
  import opened Records
  import opened Integration
  import opened InterfaceExtensions
  import PluginActionProxy

  /** `${prefix}:${suffix}` as `_callAction` computes it from the `interfaces` argument. */
  function FullActionName(interfaces: map<string, InterfaceExtension>, integrationOrInterfaceName: string,
                          methodName: string): (r: string)
    ensures integrationOrInterfaceName !in interfaces ==> r == integrationOrInterfaceName + ":" + methodName
    ensures integrationOrInterfaceName in interfaces ==>
      var ext := interfaces[integrationOrInterfaceName];
      r == ext.name + ":" + (if methodName in ext.actions then ext.actions[methodName] else methodName)
  {
    var interfaceExtension := if integrationOrInterfaceName in interfaces then interfaces[integrationOrInterfaceName]
      else DefaultExtension(integrationOrInterfaceName);
    var prefix := interfaceExtension.name;
    var suffix := ActionSuffix(interfaceExtension, methodName);
    prefix + ":" + suffix
  }

  /** When the extension registered for an interface carries the alias table of the statement
      `extend` built, calling an interface action through the proxy targets the providing
      integration under the builder's alias, and that name is one of the actions the extension
      added to the integration. */
  lemma ProxyTargetsResolvedAction(interfaces: map<string, InterfaceExtension>, interfaceName: string,
                                   pkg: InterfacePackage, out: ExtensionBuilderOutput, methodName: string)
    requires interfaceName in interfaces
    requires interfaces[interfaceName].actions == ImplementationStatement(pkg, out).actions
    requires methodName in Keys(pkg.definition.actions.GetOr([]))
    ensures FullActionName(interfaces, interfaceName, methodName)
      == interfaces[interfaceName].name + ":" + AliasOf(out.actions, methodName)
    ensures AliasOf(out.actions, methodName) in ResolvedActions(pkg, ImplementationStatement(pkg, out))
  {
    var statement := ImplementationStatement(pkg, out);
    var defs := pkg.definition.actions.GetOr([]);
    var d := DerefActions(defs, EntitySchemas(statement.entities));
    var i :| 0 <= i < |defs| && defs[i].0 == methodName;
    assert d[i].0 == methodName;
    assert NewName(statement.actions, d[i].0) in NewNames(d, statement.actions);
  }

  /** The plugin proxy and the bot proxy compute the same name from the same table. */
  lemma ProxiesAgree(runtime: PluginActionProxy.PluginRuntimeProps, name: string, methodName: string)
    ensures PluginActionProxy.FullActionName(runtime, name, methodName)
      == FullActionName(runtime.interfaces, name, methodName)
  {
  }
}
