/** What the locale dictionaries share: the bundle that wraps one parsed
    configuration node, and the failures their operations report.
    Configuration nodes are of an abstract type `N`. */
module ConfigBundle {

  /** `ConfigResourceBundle`: an immutable wrapper around one node. */
  datatype ConfigResourceBundle<N> = ConfigResourceBundle(node: N)

  /** The `IOException` an underlying load may throw. */
  datatype IOError = IOError(message: string)

  /** The `NullPointerException` thrown by `checkNotNull(value, name)`. */
  datatype NullPointer = NullPointer(argument: string)
}

/** `AbstractConfigDictionary`: a locale-to-bundle `HashMap` with lookups
    and an unchecked `setBundle`. A Java `HashMap` accepts a null key and
    null values, so the map is keyed by `Option<L>` and holds
    `Option<ConfigResourceBundle<N>>`. */
module AbstractConfigDictionary {
  import opened Wrappers
  import opened ConfigBundle

  class AbstractConfigDictionary<L(==,!new), N> {
    const subject: object
    const defaultLocale: L
    var bundles: map<Option<L>, Option<ConfigResourceBundle<N>>>

    constructor (subject: object, defaultLocale: L)
      ensures this.subject == subject && this.defaultLocale == defaultLocale
      ensures forall locale :: GetBundle(locale) == None
    {
      this.subject := subject;
      this.defaultLocale := defaultLocale;
      bundles := map[];
    }

    /** `getBundle`: `Optional.ofNullable(bundles.get(locale))`, absent both
        for an unknown locale and for one mapped to null. */
    function GetBundle(locale: Option<L>): (r: Option<ConfigResourceBundle<N>>)
      reads this
      ensures r.Some? <==> locale in bundles && bundles[locale].Some?
      ensures r.Some? ==> r == bundles[locale]
    {
      if locale in bundles then bundles[locale] else None
    }

    /** `getNode`: the node of the bundle, absent exactly when there is no
        bundle. */
    function GetNode(locale: Option<L>): (r: Option<N>)
      reads this
      ensures r.Some? <==> GetBundle(locale).Some?
      ensures r.Some? ==> r.value == GetBundle(locale).value.node
    {
      var bundle := GetBundle(locale);
      if bundle.Some? then Some(bundle.value.node) else None
    }

    /** `setBundle`: `bundles.put(locale, bundle)`, with no null check; the
        last write wins and no other locale is touched. */
    method SetBundle(locale: Option<L>, bundle: Option<ConfigResourceBundle<N>>)
      modifies this
      ensures bundles == old(bundles)[locale := bundle]
      ensures GetBundle(locale) == bundle
      ensures forall other: L :: Some(other) != locale ==> GetBundle(Some(other)) == old(GetBundle(Some(other)))
      ensures locale != None ==> GetBundle(None) == old(GetBundle(None))
    {
      bundles := bundles[locale := bundle];
    }
  }
}

/** `SimpleConfigDictionary`: a locale-to-bundle map whose `load` keeps the
    sub-node named by the locale's string form, and whose `setBundle`
    rejects null arguments. */
module SimpleConfigDictionary {
  import opened Wrappers
  import opened ConfigBundle

  class SimpleConfigDictionary<L(==,!new), N> {
    const subject: object
    const defaultLocale: L
    /** `Locale.toString()`. */
    const localeName: L -> string
    /** `ConfigurationNode.getNode(key)`: the child node under `key`. */
    const child: (N, string) -> N
    var bundles: map<L, ConfigResourceBundle<N>>

    constructor (subject: object, defaultLocale: L, localeName: L -> string, child: (N, string) -> N)
      ensures this.subject == subject && this.defaultLocale == defaultLocale
      ensures this.localeName == localeName && this.child == child
      ensures forall locale :: GetBundle(locale) == None && GetNode(locale) == None
    {
      this.subject := subject;
      this.defaultLocale := defaultLocale;
      this.localeName := localeName;
      this.child := child;
      bundles := map[];
    }

    /** `load(locale)`, given `source`, what the inherited default load
        produced for `locale`: a failure propagates with the map untouched;
        otherwise the child named by the locale is stored for that locale
        alone and returned. */
    method Load(locale: L, source: Result<N, IOError>) returns (r: Result<N, IOError>)
      modifies this
      ensures source.Failure? ==> r == Failure(source.error) && bundles == old(bundles)
      ensures source.Success? ==> r == Success(child(source.value, localeName(locale)))
      ensures source.Success? ==> bundles == old(bundles)[locale := ConfigResourceBundle(r.value)]
      ensures r.Success? ==> GetNode(locale) == Some(r.value)
      ensures forall other :: other != locale ==> GetBundle(other) == old(GetBundle(other))
    {
      match source
      case Failure(e) =>
        r := Failure(e);
      case Success(root) =>
        var localeNode := child(root, localeName(locale));
        bundles := bundles[locale := ConfigResourceBundle(localeNode)];
        r := Success(localeNode);
    }

    /** `getNode`: read straight from the map, and agreeing with
        `getBundle`. */
    function GetNode(locale: L): (r: Option<N>)
      reads this
      ensures r.Some? <==> GetBundle(locale).Some?
      ensures r.Some? ==> r.value == GetBundle(locale).value.node
    {
      if locale in bundles then Some(bundles[locale].node) else None
    }

    /** `getBundle`: the stored bundle, absent for a locale never stored. */
    function GetBundle(locale: L): (r: Option<ConfigResourceBundle<N>>)
      reads this
      ensures r.Some? <==> locale in bundles
      ensures r.Some? ==> r.value == bundles[locale]
    {
      if locale in bundles then Some(bundles[locale]) else None
    }

    /** `setBundle`: `checkNotNull` on the locale, then on the bundle; a
        null argument fails and nothing is stored. */
    method SetBundle(locale: Option<L>, bundle: Option<ConfigResourceBundle<N>>) returns (r: Outcome<NullPointer>)
      modifies this
      ensures locale.None? ==> r == Fail(NullPointer("locale"))
      ensures locale.Some? && bundle.None? ==> r == Fail(NullPointer("bundle"))
      ensures r.Fail? ==> bundles == old(bundles)
      ensures r.Pass? <==> locale.Some? && bundle.Some?
      ensures r.Pass? ==> bundles == old(bundles)[locale.value := bundle.value]
      ensures r.Pass? ==> GetBundle(locale.value) == bundle
      ensures forall other :: locale != Some(other) ==> GetBundle(other) == old(GetBundle(other))
    {
      if locale.None? {
        r := Fail(NullPointer("locale"));
      } else if bundle.None? {
        r := Fail(NullPointer("bundle"));
      } else {
        bundles := bundles[locale.value := bundle.value];
        r := Pass;
      }
    }
  }
}

/** `MultiSourceConfigDictionary`: an `AbstractConfigDictionary` whose
    `load` caches the whole node the inherited load produced. The
    inherited state and lookups are those of `base`. */
module MultiSourceConfigDictionary {
  import opened Wrappers
  import opened ConfigBundle
  import opened AbstractConfigDictionary

  class MultiSourceConfigDictionary<L(==,!new), N> {
    const base: AbstractConfigDictionary<L, N>

    constructor (subject: object, defaultLocale: L)
      ensures fresh(base)
      ensures base.subject == subject && base.defaultLocale == defaultLocale
      ensures forall locale :: base.GetBundle(locale) == None
    {
      base := new AbstractConfigDictionary(subject, defaultLocale);
    }

    /** `load(locale)`, given `source`, what `super.load(locale)` produced:
        the result is passed on unchanged; on success the node itself, with
        no sub-node taken, replaces any bundle for `locale`. */
    method Load(locale: L, source: Result<N, IOError>) returns (r: Result<N, IOError>)
      modifies base
      ensures r == source
      ensures source.Failure? ==> base.bundles == old(base.bundles)
      ensures source.Success? ==> base.bundles == old(base.bundles)[Some(locale) := Some(ConfigResourceBundle(source.value))]
      ensures source.Success? ==> base.GetNode(Some(locale)) == Some(source.value)
      ensures forall other: L :: other != locale ==> base.GetBundle(Some(other)) == old(base.GetBundle(Some(other)))
      ensures base.GetBundle(None) == old(base.GetBundle(None))
    {
      r := source;
      if source.Success? {
        base.bundles := base.bundles[Some(locale) := Some(ConfigResourceBundle(source.value))];
      }
    }
  }
}
