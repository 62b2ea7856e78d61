/** The default methods of `PluginManager`: everything is derived from the
    registry lookup `fromInstance`, a partial function from plugin
    instances to containers. */
module PluginManager {
  import opened Wrappers

  /** The container accessors this code reads: id, name, version and the
      plugin's service manager (of abstract type `S`). */
  datatype PluginContainer<S> = PluginContainer(id: string, name: string, version: string, serviceManager: S)

  /** `PluginNotFoundException`, carrying the instance that was looked up. */
  datatype PluginError<I> = PluginNotFound(instance: I)

  /** What `getDictionary` hands out: a dictionary the plugin provides, or
      the `NullDictionary` sentinel built for the plugin. */
  datatype DictionaryRef<I, D> = Provided(dictionary: D) | NullDictionary(plugin: I)

  datatype PluginManager<!I, S> = PluginManager(fromInstance: I -> Option<PluginContainer<S>>)
  {
    /** `find`: the container, or a plugin-not-found failure for exactly
        the instances the registry does not know. */
    function Find(instance: I): (r: Result<PluginContainer<S>, PluginError<I>>)
      ensures r.Success? <==> fromInstance(instance).Some?
      ensures r.Success? ==> r.value == fromInstance(instance).value
      ensures r.Failure? ==> r.error == PluginNotFound(instance)
    {
      match fromInstance(instance)
      case Some(container) => Success(container)
      case None => Failure(PluginNotFound(instance))
    }

    /** `getId`: the registered container's id. */
    function GetId(plugin: I): (r: Result<string, PluginError<I>>)
      ensures fromInstance(plugin).Some? ==> r == Success(fromInstance(plugin).value.id)
      ensures fromInstance(plugin).None? ==> r == Failure(PluginNotFound(plugin))
    {
      var container :- Find(plugin);
      Success(container.id)
    }

    /** `getName`: the registered container's name. */
    function GetName(plugin: I): (r: Result<string, PluginError<I>>)
      ensures fromInstance(plugin).Some? ==> r == Success(fromInstance(plugin).value.name)
      ensures fromInstance(plugin).None? ==> r == Failure(PluginNotFound(plugin))
    {
      var container :- Find(plugin);
      Success(container.name)
    }

    /** `getVersion`: the registered container's version. */
    function GetVersion(plugin: I): (r: Result<string, PluginError<I>>)
      ensures fromInstance(plugin).Some? ==> r == Success(fromInstance(plugin).value.version)
      ensures fromInstance(plugin).None? ==> r == Failure(PluginNotFound(plugin))
    {
      var container :- Find(plugin);
      Success(container.version)
    }

    /** `getServiceManager`: the registered container's service manager. */
    function GetServiceManager(plugin: I): (r: Result<S, PluginError<I>>)
      ensures fromInstance(plugin).Some? ==> r == Success(fromInstance(plugin).value.serviceManager)
      ensures fromInstance(plugin).None? ==> r == Failure(PluginNotFound(plugin))
    {
      var container :- Find(plugin);
      Success(container.serviceManager)
    }

    /** `getDictionary`, given `provideFirst`, the service manager's
        `provideFirst(Dictionary.class)`: for a registered plugin always a
        dictionary, the provided one if any, else `NullDictionary(plugin)`. */
    function GetDictionary<D>(plugin: I, provideFirst: S -> Option<D>): (r: Result<DictionaryRef<I, D>, PluginError<I>>)
      ensures r.Success? <==> fromInstance(plugin).Some?
      ensures fromInstance(plugin).None? ==> r == Failure(PluginNotFound(plugin))
      ensures r.Success? && provideFirst(fromInstance(plugin).value.serviceManager).Some? ==>
                r.value == Provided(provideFirst(fromInstance(plugin).value.serviceManager).value)
      ensures r.Success? && provideFirst(fromInstance(plugin).value.serviceManager).None? ==>
                r.value == NullDictionary(plugin)
    {
      var serviceManager :- GetServiceManager(plugin);
      match provideFirst(serviceManager)
      case Some(dictionary) => Success(Provided(dictionary))
      case None => Success(NullDictionary(plugin))
    }
  }
}
