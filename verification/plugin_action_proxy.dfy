/** The action type a plugin's action proxy calls for `actions[integrationOrInterfaceName][methodName]`. */
module PluginActionProxy {
  import opened InterfaceExtensions

  /** The part of the plugin runtime the proxy reads. */
  datatype PluginRuntimeProps = PluginRuntimeProps(interfaces: map<string, InterfaceExtension>)

  /** `${prefix}:${suffix}` as `_callAction` computes it from `runtime.interfaces`. */
  function FullActionName(runtime: PluginRuntimeProps, integrationOrInterfaceName: string, methodName: string)
    : (r: string)
    ensures integrationOrInterfaceName !in runtime.interfaces ==>
      r == integrationOrInterfaceName + ":" + methodName
    ensures integrationOrInterfaceName in runtime.interfaces ==>
      var ext := runtime.interfaces[integrationOrInterfaceName];
      r == ext.name + ":" + (if methodName in ext.actions then ext.actions[methodName] else methodName)
  {
    var interfaceExtension :=
      if integrationOrInterfaceName in runtime.interfaces then runtime.interfaces[integrationOrInterfaceName]
      else DefaultExtension(integrationOrInterfaceName);
    interfaceExtension.name + ":" + ActionSuffix(interfaceExtension, methodName)
  }
}
