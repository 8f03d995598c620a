/** Bot validation, run once at assembly time: table keys must be camelCase, and every interface the
    bot depends on must be implemented by one of its installed integrations. Fails on the first
    problem found. */
module ValidateBot {
  import opened Wrappers
  import opened Records
  import opened Strings
  import opened Integration
  import opened Bot

  datatype TableKind = ActionNames | EventNames | StateNames

  datatype ValidationError =
    | NotCamelCase(kind: TableKind, names: seq<string>)
    | UnimplementedInterface(interfaceRef: string)

  function KindWord(kind: TableKind): string
  {
    match kind
    case ActionNames => "action"
    case EventNames => "event"
    case StateNames => "state"
  }

  /** The text of the thrown error: it names the kind of table and every offending name, or the
      missing interface. */
  function ErrorMessage(e: ValidationError): (r: string)
    ensures e.NotCamelCase? ==>
      Contains(r, KindWord(e.kind)) && forall i :: 0 <= i < |e.names| ==> Contains(r, e.names[i])
    ensures e.UnimplementedInterface? ==> Contains(r, e.interfaceRef)
  {
    if e.NotCamelCase? then NotCamelCaseMessage(KindWord(e.kind), e.names)
    else UnimplementedMessage(e.interfaceRef)
  }

  function NotCamelCaseMessage(word: string, names: seq<string>): (r: string)
    ensures Contains(r, word) && forall i :: 0 <= i < |names| ==> Contains(r, names[i])
  {
    var head := "The following ";
    var middle := " names are not in camelCase: ";
    var list := Join(names, ", ");
    ContainsMiddle(head, word, middle + list);
    ContainsAllAfter(head + word + middle, list, names);
    assert head + word + (middle + list) == head + word + middle + list;
    head + word + middle + list
  }

  function UnimplementedMessage(ref: string): (r: string)
    ensures Contains(r, ref)
  {
    var head := "The bot declares a dependency on interface ";
    var tail := " but no integration implements it. Please install an integration that implements this interface.";
    ContainsMiddle(head, ref, tail);
    head + ref + tail
  }

  /** `_nonCamelCaseKeys(obj)`: the keys that are not camelCase, each once, in key order. */
  function NonCamelCaseKeys<V>(r: Record<V>, isCamelCase: string -> bool): (ks: seq<string>)
    ensures forall k :: k in ks <==> k in Keys(r) && !isCamelCase(k)
    ensures forall i, j :: 0 <= i < j < |ks| ==> IndexOf(r, ks[i]) < IndexOf(r, ks[j])
    ensures |ks| <= |r|
  {
    if |r| == 0 then []
    else
      var rest := NonCamelCaseKeys(r[1..], isCamelCase);
      var ks := if isCamelCase(r[0].0) then rest else [r[0].0] + rest;
      NonCamelCaseMembers(r, isCamelCase, rest, ks);
      assert forall i :: 0 <= i < |rest| ==> rest[i] in rest;
      NonCamelCaseOrder(r, isCamelCase(r[0].0), rest, ks);
      ks
  }

  /** The first key, when it is not camelCase, joins the keys found among the remaining ones. */
  lemma NonCamelCaseMembers<V>(r: Record<V>, isCamelCase: string -> bool, rest: seq<string>, ks: seq<string>)
    requires |r| > 0
    requires forall k :: k in rest <==> k in Keys(r[1..]) && !isCamelCase(k)
    requires ks == if isCamelCase(r[0].0) then rest else [r[0].0] + rest
    ensures forall k :: k in ks <==> k in Keys(r) && !isCamelCase(k)
  {
    IndexOfTail(r);
  }

  /** Keys of the rest of a record sit one position further in the whole record. */
  lemma ShiftedPositions<V>(r: Record<V>, rest: seq<string>)
    requires |r| > 0
    requires forall i :: 0 <= i < |rest| ==> rest[i] in Keys(r[1..])
    ensures forall i :: 0 <= i < |rest| ==> rest[i] in Keys(r) && IndexOf(r, rest[i]) == 1 + IndexOf(r[1..], rest[i])
  {
    forall i | 0 <= i < |rest|
      ensures rest[i] in Keys(r) && IndexOf(r, rest[i]) == 1 + IndexOf(r[1..], rest[i])
    {
      IndexOfTailAt(r, rest[i]);
    }
  }

  /** Putting the first key in front of a list ordered by position in the rest keeps it ordered. */
  lemma NonCamelCaseOrder<V>(r: Record<V>, skipFirst: bool, rest: seq<string>, ks: seq<string>)
    requires |r| > 0
    requires forall i :: 0 <= i < |rest| ==> rest[i] in Keys(r[1..])
    requires forall i, j :: 0 <= i < j < |rest| ==> IndexOf(r[1..], rest[i]) < IndexOf(r[1..], rest[j])
    requires |rest| <= |r| - 1
    requires ks == if skipFirst then rest else [r[0].0] + rest
    ensures forall i :: 0 <= i < |ks| ==> ks[i] in Keys(r)
    ensures forall i, j :: 0 <= i < j < |ks| ==> IndexOf(r, ks[i]) < IndexOf(r, ks[j])
    ensures |ks| <= |r|
  {
    ShiftedPositions(r, rest);
    if !skipFirst {
      assert r[0].0 in Keys(r) && IndexOf(r, r[0].0) == 0;
      assert forall i :: 1 <= i < |ks| ==> ks[i] == rest[i - 1];
    }
  }

  /** `name@version` */
  function InterfaceRef(dep: InterfacePackage): (r: string)
    ensures |r| == |dep.definition.name| + 1 + |dep.definition.version|
    ensures r[..|dep.definition.name|] == dep.definition.name && r[|dep.definition.name|] == '@'
    ensures r[|dep.definition.name| + 1..] == dep.definition.version
  {
    dep.definition.name + "@" + dep.definition.version
  }

  /** The reported reference identifies the dependency when interface names contain no `@`. */
  lemma InterfaceRefInjective(a: InterfacePackage, b: InterfacePackage)
    requires Excludes(a.definition.name, '@') && Excludes(b.definition.name, '@')
    ensures InterfaceRef(a) == InterfaceRef(b) <==>
      a.definition.name == b.definition.name && a.definition.version == b.definition.version
  {
  }

  /** `_implementsInterface(integration, intrface)`: some statement in the integration's resolved
      interfaces, whatever its binding key, has the dependency's name and version. */
  predicate ImplementsInterface(integration: IntegrationInstance, dep: InterfacePackage)
    ensures integration.pkg.definition.interfaces.None? ==> !ImplementsInterface(integration, dep)
  {
    var statements := integration.pkg.definition.interfaces.GetOr(map[]);
    exists key :: key in statements
      && statements[key].name == dep.definition.name
      && statements[key].version == dep.definition.version
  }

  /** Some installed integration implements the dependency; with none installed, nothing is. */
  predicate Implemented(dep: InterfacePackage, installed: seq<IntegrationInstance>)
    ensures |installed| == 0 ==> !Implemented(dep, installed)
  {
    exists i :: 0 <= i < |installed| && ImplementsInterface(installed[i], dep)
  }

  /** `integrationEntries.find(([, i]) => _implementsInterface(i, dep))`: the position of the first
      installed integration that implements the dependency. */
  function FindImplementation(dep: InterfacePackage, installed: seq<IntegrationInstance>): (r: Option<nat>)
    ensures r.None? <==> !Implemented(dep, installed)
    ensures r.Some? ==>
      && r.value < |installed| && ImplementsInterface(installed[r.value], dep)
      && forall j :: 0 <= j < r.value ==> !ImplementsInterface(installed[j], dep)
  {
    if |installed| == 0 then None
    else if ImplementsInterface(installed[0], dep) then Some(0)
    else
      assert forall i :: 1 <= i < |installed| ==> installed[i] == installed[1..][i - 1];
      match FindImplementation(dep, installed[1..])
      case None => None
      case Some(i) => Some(i + 1)
  }

  /** The first dependency, in declaration order, that no installed integration implements. */
  function FirstUnimplemented(deps: seq<InterfacePackage>, installed: seq<IntegrationInstance>)
    : (r: Option<InterfacePackage>)
    ensures r.None? <==> forall i :: 0 <= i < |deps| ==> Implemented(deps[i], installed)
    ensures r.Some? ==>
      exists i :: 0 <= i < |deps| && deps[i] == r.value && !Implemented(deps[i], installed)
        && forall j :: 0 <= j < i ==> Implemented(deps[j], installed)
  {
    if |deps| == 0 then None
    else if FindImplementation(deps[0], installed).None? then Some(deps[0])
    else
      var r := FirstUnimplemented(deps[1..], installed);
      FirstUnimplementedNone(deps, installed, r);
      FirstUnimplementedSome(deps, installed, r);
      r
  }

  /** When the first dependency is implemented, all are exactly when the rest are. */
  lemma FirstUnimplementedNone(deps: seq<InterfacePackage>, installed: seq<IntegrationInstance>,
                               r: Option<InterfacePackage>)
    requires |deps| > 0 && Implemented(deps[0], installed)
    requires r.None? <==> forall i :: 0 <= i < |deps| - 1 ==> Implemented(deps[1..][i], installed)
    ensures r.None? <==> forall i :: 0 <= i < |deps| ==> Implemented(deps[i], installed)
  {
    assert forall i :: 1 <= i < |deps| ==> deps[i] == deps[1..][i - 1];
  }

  /** When the first dependency is implemented, the first unimplemented one is among the rest. */
  lemma FirstUnimplementedSome(deps: seq<InterfacePackage>, installed: seq<IntegrationInstance>,
                               r: Option<InterfacePackage>)
    requires |deps| > 0 && Implemented(deps[0], installed)
    requires r.Some? ==>
      exists i :: 0 <= i < |deps| - 1 && deps[1..][i] == r.value && !Implemented(deps[1..][i], installed)
        && forall j :: 0 <= j < i ==> Implemented(deps[1..][j], installed)
    ensures r.Some? ==>
      exists i :: 0 <= i < |deps| && deps[i] == r.value && !Implemented(deps[i], installed)
        && forall j :: 0 <= j < i ==> Implemented(deps[j], installed)
  {
    if r.Some? {
      var i :| 0 <= i < |deps| - 1 && deps[1..][i] == r.value && !Implemented(deps[1..][i], installed)
        && forall j :: 0 <= j < i ==> Implemented(deps[1..][j], installed);
      assert forall j :: 0 <= j < i + 1 ==> deps[j] == if j == 0 then deps[0] else deps[1..][j - 1];
      assert deps[i + 1] == r.value;
    }
  }

  /** `validateBotDefinition(b)`, with `utils.casing.is.camelCase` as the parameter `isCamelCase`. */
  function ValidateBotDefinition(b: BotDefinition, isCamelCase: string -> bool): (r: Outcome<ValidationError>)
    reads b
    ensures var invalidActions := NonCamelCaseKeys(b.actions.GetOr([]), isCamelCase);
      |invalidActions| > 0 ==> r == Fail(NotCamelCase(ActionNames, invalidActions))
    ensures var invalidActions := NonCamelCaseKeys(b.actions.GetOr([]), isCamelCase);
      var invalidEvents := NonCamelCaseKeys(b.events.GetOr([]), isCamelCase);
      |invalidActions| == 0 && |invalidEvents| > 0 ==> r == Fail(NotCamelCase(EventNames, invalidEvents))
    ensures var invalidActions := NonCamelCaseKeys(b.actions.GetOr([]), isCamelCase);
      var invalidEvents := NonCamelCaseKeys(b.events.GetOr([]), isCamelCase);
      var invalidStates := NonCamelCaseKeys(b.states.GetOr([]), isCamelCase);
      |invalidActions| == 0 && |invalidEvents| == 0 && |invalidStates| > 0 ==>
        r == Fail(NotCamelCase(StateNames, invalidStates))
    ensures r.Pass? <==>
      && (forall k :: k in Keys(b.actions.GetOr([])) ==> isCamelCase(k))
      && (forall k :: k in Keys(b.events.GetOr([])) ==> isCamelCase(k))
      && (forall k :: k in Keys(b.states.GetOr([])) ==> isCamelCase(k))
      && var deps := Values(b.interfaces.GetOr([]));
         forall i :: 0 <= i < |deps| ==> Implemented(deps[i], Values(b.integrations.GetOr([])))
    ensures r.Fail? && r.error.NotCamelCase? ==> |r.error.names| > 0
    ensures var deps := Values(b.interfaces.GetOr([]));
      var installed := Values(b.integrations.GetOr([]));
      && |NonCamelCaseKeys(b.actions.GetOr([]), isCamelCase)| == 0
      && |NonCamelCaseKeys(b.events.GetOr([]), isCamelCase)| == 0
      && |NonCamelCaseKeys(b.states.GetOr([]), isCamelCase)| == 0
      && FirstUnimplemented(deps, installed).Some? ==>
        r == Fail(UnimplementedInterface(InterfaceRef(FirstUnimplemented(deps, installed).value)))
    ensures r.Fail? && r.error.UnimplementedInterface? ==>
      var deps := Values(b.interfaces.GetOr([]));
      exists i :: 0 <= i < |deps| && r.error.interfaceRef == InterfaceRef(deps[i])
        && !Implemented(deps[i], Values(b.integrations.GetOr([])))
        && forall j :: 0 <= j < i ==> Implemented(deps[j], Values(b.integrations.GetOr([])))
  {
    var actionCheck := CheckNames(ActionNames, b.actions.GetOr([]), isCamelCase);
    if actionCheck.Fail? then actionCheck
    else
      var eventCheck := CheckNames(EventNames, b.events.GetOr([]), isCamelCase);
      if eventCheck.Fail? then eventCheck
      else
        var stateCheck := CheckNames(StateNames, b.states.GetOr([]), isCamelCase);
        if stateCheck.Fail? then stateCheck
        else CheckDependencies(Values(b.interfaces.GetOr([])), Values(b.integrations.GetOr([])))
  }

  /** One of the three camelCase checks: it fails with every offending key of the table. */
  function CheckNames<V>(kind: TableKind, table: Record<V>, isCamelCase: string -> bool)
    : (r: Outcome<ValidationError>)
    ensures r.Pass? <==> forall k :: k in Keys(table) ==> isCamelCase(k)
    ensures r.Pass? <==> |NonCamelCaseKeys(table, isCamelCase)| == 0
    ensures r.Fail? ==> r == Fail(NotCamelCase(kind, NonCamelCaseKeys(table, isCamelCase)))
  {
    var invalidNames := NonCamelCaseKeys(table, isCamelCase);
    if |invalidNames| > 0 then
      assert invalidNames[0] in invalidNames;
      Fail(NotCamelCase(kind, invalidNames))
    else Pass
  }

  /** The loop over the dependencies: it fails on the first one no installed integration implements. */
  function CheckDependencies(deps: seq<InterfacePackage>, installed: seq<IntegrationInstance>)
    : (r: Outcome<ValidationError>)
    ensures r.Pass? <==> forall i :: 0 <= i < |deps| ==> Implemented(deps[i], installed)
    ensures FirstUnimplemented(deps, installed).Some? ==>
      r == Fail(UnimplementedInterface(InterfaceRef(FirstUnimplemented(deps, installed).value)))
    ensures r.Fail? ==>
      && r.error.UnimplementedInterface?
      && exists i :: 0 <= i < |deps| && r.error.interfaceRef == InterfaceRef(deps[i])
           && !Implemented(deps[i], installed)
           && forall j :: 0 <= j < i ==> Implemented(deps[j], installed)
  {
    match FirstUnimplemented(deps, installed)
    case Some(dep) => Fail(UnimplementedInterface(InterfaceRef(dep)))
    case None => Pass
  }

  /** An integration whose package carries the statement `extend` produced for an interface
      implements that interface, whatever entities and aliases the builder chose. */
  lemma ExtendedIntegrationImplements(integration: IntegrationInstance, dep: InterfacePackage,
                                      out: ExtensionBuilderOutput)
    requires var statements := integration.pkg.definition.interfaces.GetOr(map[]);
      BindingKey(dep.definition.name, EntityNames(out.entities)) in statements
      && statements[BindingKey(dep.definition.name, EntityNames(out.entities))]
         == ImplementationStatement(dep, out)
    ensures ImplementsInterface(integration, dep)
  {
    var key := BindingKey(dep.definition.name, EntityNames(out.entities));
    assert integration.pkg.definition.interfaces.GetOr(map[])[key].name == dep.definition.name;
  }

  /** Matching is exact on both name and version: a statement of the right name at another version,
      or of another name at the right version, does not implement a dependency. */
  lemma ImplementsNeedsNameAndVersion(integration: IntegrationInstance, dep: InterfacePackage)
    ensures ImplementsInterface(integration, dep) <==>
      exists s :: s in integration.pkg.definition.interfaces.GetOr(map[]).Values
        && s.name == dep.definition.name && s.version == dep.definition.version
  {
    var statements := integration.pkg.definition.interfaces.GetOr(map[]);
    if ImplementsInterface(integration, dep) {
      var key :| key in statements && statements[key].name == dep.definition.name
        && statements[key].version == dep.definition.version;
      assert statements[key] in statements.Values;
    }
    if exists s :: s in statements.Values && s.name == dep.definition.name && s.version == dep.definition.version {
      var s :| s in statements.Values && s.name == dep.definition.name && s.version == dep.definition.version;
      var key :| key in statements && statements[key] == s;
    }
  }

  function Statement(name: string, version: string): InterfaceImplementationStatement
  {
    InterfaceImplementationStatement(None, name, version, map[], map[], map[], map[])
  }

  function Dependency(name: string, version: string): InterfacePackage
  {
    InterfacePackage(None, InterfaceDefinition(name, version, None, None, None, None))
  }

  /** A bot depending on X@1.0.0 whose only integration implements X@2.0.0 and Y@1.0.0 is refused,
      and the error names X@1.0.0. */
  lemma VersionMismatchRefused(integration: IntegrationInstance)
    requires integration.pkg.definition.interfaces
      == Some(map["x" := Statement("x", "2.0.0"), "y" := Statement("y", "1.0.0")])
    ensures FirstUnimplemented([Dependency("x", "1.0.0")], [integration]) == Some(Dependency("x", "1.0.0"))
    ensures InterfaceRef(Dependency("x", "1.0.0")) == "x@1.0.0"
  {
    var statements := integration.pkg.definition.interfaces.GetOr(map[]);
    assert statements.Keys == {"x", "y"};
    assert !ImplementsInterface(integration, Dependency("x", "1.0.0")) by {
      forall key | key in statements
        ensures !(statements[key].name == "x" && statements[key].version == "1.0.0")
      {
        assert key == "x" || key == "y";
      }
    }
    assert !Implemented(Dependency("x", "1.0.0"), [integration]);
  }
}
