# SpongeAPI text formatter, locale dictionaries and plugin manager, in Dafny

This project models three small, stateful parts of the SpongeAPI plugin API
and proves what each operation does.

- **Text formatter.** `TextFormatter` is an ordered, mutable list of
  text-producing elements. `format()` folds the list onto the empty text.
  `SimpleTextFormatter` keeps the elements in an `ArrayList` field, `parts`.
  It has `add`, `insert` and `remove`, each for one element, a
  `Collection`, an `Iterable` and an `Iterator`; `retain` for a
  `Collection`, an `Iterable` and an `Iterator`; and `clear` and `getAll`.
  In the model `parts` is a `seq` field that every mutating method
  reassigns. The
  operations `ArrayList` performs are written as functions on sequences:
  `InsertAt`, `RemoveFirst`, and `BatchRemove`, which is the filter behind
  `removeAll` and `retainAll`. The lemmas beside them prove what those
  functions mean. `Text` is abstract: a `Monoid` value holding `EMPTY` and
  `concat`. A lemma assumes associativity or an identity law only when it
  needs it. `toText` is a function parameter.
- **Locale dictionaries.** These are caches from `Locale` to
  `ConfigResourceBundle`.
  - `AbstractConfigDictionary` keeps a `HashMap` with an unchecked
    `setBundle`.
  - `SimpleConfigDictionary` stores the sub-node named by the locale on
    `load`, and its `setBundle` rejects nulls.
  - `MultiSourceConfigDictionary` stores the whole loaded node on `load`.

  Each one is a class with a `map` field. `Locale` and the configuration
  node type are type parameters. The underlying load is, for
  `SimpleConfigDictionary`, the `ConfigDictionary` default it calls, and
  for `MultiSourceConfigDictionary`, the `load` that
  `AbstractConfigDictionary` inherits. The code of neither is part of this
  model. Its outcome is passed to `Load` as the parameter `source`: a node,
  or an `IOError`.
- **Plugin manager.** These are the default methods of `PluginManager`
  (`find`, the getters, `getDictionary`). They are pure functions over the
  registry lookup `fromInstance`, which is a partial function
  `I -> Option<PluginContainer>`.

Files:
- `wrappers.dfy`: `Option`, `Result`, `Outcome`.
- `iteration.dfy`: stand-ins for Java's `Iterator` and `Iterable` and for
  Guava's `Lists.newArrayList`.
- `text_formatter.dfy`: the `TextFormatter` defaults.
- `simple_text_formatter.dfy`: the class and its sequence functions.
- `config_dictionary.dfy`: the three dictionaries.
- `plugin_manager.dfy`: the plugin manager.

Java exceptions become error values:
- `IndexOutOfBounds` for `get` and `insert`;
- `NullPointer("locale")` and `NullPointer("bundle")` for
  `checkNotNull`;
- `PluginNotFound(instance)` for `find`;
- `IOError` for a failed load.

Java `null` becomes `None` where the code accepts it.

Facts about the dictionary code that shape the model:
- `AbstractConfigDictionary.setBundle` does no null check, and a `HashMap`
  accepts both a null key and null values. Its map is therefore modelled
  as `map<Option<L>, Option<Bundle>>`. After `setBundle(L, null)`,
  `getBundle(L)` is empty again.
- `MultiSourceConfigDictionary.load` stores the node `super.load` returns
  as it is. Only `SimpleConfigDictionary` takes the sub-node named by the
  locale.
- `SimpleConfigDictionary` extends `AbstractRemoteDictionary` directly and
  has its own map.

`MultiSourceConfigDictionary` extends `AbstractConfigDictionary`. The model
composes instead of inheriting: the inherited state and lookups belong to
its `base` object, and `Load` writes `base.bundles` directly, as the Java
code writes the inherited field.

Every snapshot that `getAll` returns is a Dafny `seq`, which is a value. A
later mutation of the formatter therefore never changes a snapshot taken
earlier.

## Model

| member | source | states |
|---|---|---|
| `TextFormatter.Format` | src/main/java/org/spongepowered/api/text/transform/TextFormatter.java:196-202 | defines the text `format()` yields: the text of all but the last element, with the last element's text concatenated on; no elements give `EMPTY`, and one element `e` gives `concat(EMPTY, e.toText())` |
| `TextFormatter.FoldLeft` | src/main/java/org/spongepowered/api/text/transform/TextFormatter.java:196-202 | defines the accumulator loop run forwards from `acc`, concatenating each element's text in turn; no elements give `acc`, and one element `e` gives `concat(acc, e.toText())` |
| `TextFormatter.FormatEmpty` | src/main/java/org/spongepowered/api/text/transform/TextFormatter.java:196-202 | a formatter with no elements formats to `Text.EMPTY` |
| `TextFormatter.FormatIsLeftFold` | src/main/java/org/spongepowered/api/text/transform/TextFormatter.java:196-202 | the formatted text is the left fold `concat(...concat(concat(EMPTY, e0.toText()), e1.toText())..., en.toText())`, in element order, for any `Text` type |
| `TextFormatter.FormatThree` | src/main/java/org/spongepowered/api/text/transform/TextFormatter.java:189-202 | if `EMPTY` is a left identity, formatting `[a, b, c]` equals concatenating `a.toText()`, `b.toText()`, `c.toText()` in turn |
| `TextFormatter.FormatAppend` | src/main/java/org/spongepowered/api/text/transform/TextFormatter.java:196-202 | if `concat` is associative and `EMPTY` a right identity, the text of `xs + ys` is the text of `xs` concatenated with the text of `ys` |
| `SimpleTextFormatter.SimpleTextFormatter.Format` | src/main/java/org/spongepowered/api/text/transform/TextFormatter.java:196-202 | the loop over `iterator()` returns exactly the left fold of the current elements; it changes nothing in the formatter |
| `SimpleTextFormatter.SimpleTextFormatter.ToText` | src/main/java/org/spongepowered/api/text/transform/TextFormatter.java:209-212 | `toText()` is the formatted text |
| `SimpleTextFormatter.SimpleTextFormatter.Iterator` | src/main/java/org/spongepowered/api/text/transform/TextFormatter.java:204-207 | a new iterator that yields exactly the snapshot's elements, in order |
| `SimpleTextFormatter.SimpleTextFormatter.Get` | src/main/java/org/spongepowered/api/text/transform/TextFormatter.java:53-55 | `get(i)` is `getAll()[i]` when `0 <= i < size`; otherwise it fails with an index-out-of-bounds error carrying `i` and the size |
| `SimpleTextFormatter.SimpleTextFormatter.GetAll` | src/main/java/org/spongepowered/api/text/transform/SimpleTextFormatter.java:63-66 | the snapshot equals `parts`; being a value, it is unaffected by later mutation |
| `SimpleTextFormatter.SimpleTextFormatter.constructor` | src/main/java/org/spongepowered/api/text/transform/SimpleTextFormatter.java:49-54 | `initialSize` new appliers, pairwise distinct |
| `SimpleTextFormatter.SimpleTextFormatter.Empty` | src/main/java/org/spongepowered/api/text/transform/SimpleTextFormatter.java:56-61 | the no-argument constructor gives an empty formatter |
| `SimpleTextFormatter.SimpleTextFormatter.Clear` | src/main/java/org/spongepowered/api/text/transform/SimpleTextFormatter.java:68-71 | afterwards the formatter is empty |
| `SimpleTextFormatter.SimpleTextFormatter.Add` | src/main/java/org/spongepowered/api/text/transform/SimpleTextFormatter.java:73-76 | appends the element at the end and returns true |
| `SimpleTextFormatter.SimpleTextFormatter.AddAll` | src/main/java/org/spongepowered/api/text/transform/SimpleTextFormatter.java:78-81 | appends the collection in order; returns true iff it is non-empty |
| `SimpleTextFormatter.SimpleTextFormatter.AddIterable` | src/main/java/org/spongepowered/api/text/transform/SimpleTextFormatter.java:83-86 | gives the same state and result as `AddAll` on the iterable's elements |
| `SimpleTextFormatter.SimpleTextFormatter.AddIterator` | src/main/java/org/spongepowered/api/text/transform/SimpleTextFormatter.java:88-91 | gives the same state and result as `AddAll` on the iterator's remaining elements, and leaves the iterator exhausted |
| `SimpleTextFormatter.SimpleTextFormatter.Insert` | src/main/java/org/spongepowered/api/text/transform/SimpleTextFormatter.java:93-96 | if `0 <= i <= size`, the element lands at `i` (`get(i)` is the element) and later elements shift right; otherwise it fails with an index error and nothing changes |
| `SimpleTextFormatter.SimpleTextFormatter.InsertAll` | src/main/java/org/spongepowered/api/text/transform/SimpleTextFormatter.java:98-101 | if `0 <= i <= size`, the new list is `parts[..i] + xs + parts[i..]`; otherwise it fails with nothing changed, even when `xs` is empty |
| `SimpleTextFormatter.SimpleTextFormatter.InsertIterable` | src/main/java/org/spongepowered/api/text/transform/SimpleTextFormatter.java:103-106 | behaves as `InsertAll` on the iterable's elements |
| `SimpleTextFormatter.SimpleTextFormatter.InsertIterator` | src/main/java/org/spongepowered/api/text/transform/SimpleTextFormatter.java:108-111 | behaves as `InsertAll` on the iterator's remaining elements; the iterator is exhausted even when the index is rejected |
| `SimpleTextFormatter.SimpleTextFormatter.Remove` | src/main/java/org/spongepowered/api/text/transform/SimpleTextFormatter.java:113-116 | removes the first occurrence only; returns whether the element was present; nothing changes when it was absent |
| `SimpleTextFormatter.SimpleTextFormatter.RemoveAll` | src/main/java/org/spongepowered/api/text/transform/SimpleTextFormatter.java:118-121 | drops every element contained in the collection and keeps the rest in order; the result is true iff the length changed, which is iff some element was contained |
| `SimpleTextFormatter.SimpleTextFormatter.RemoveIterable` | src/main/java/org/spongepowered/api/text/transform/SimpleTextFormatter.java:123-126 | gives the same state and result as `RemoveAll` on the iterable's elements |
| `SimpleTextFormatter.SimpleTextFormatter.RemoveIterator` | src/main/java/org/spongepowered/api/text/transform/SimpleTextFormatter.java:128-131 | gives the same state and result as `RemoveAll` on the iterator's remaining elements, and leaves the iterator exhausted |
| `SimpleTextFormatter.SimpleTextFormatter.RetainAll` | src/main/java/org/spongepowered/api/text/transform/SimpleTextFormatter.java:133-136 | drops every element not contained in the collection and keeps the rest in order; the result is true iff the length changed, which is iff some element was not contained |
| `SimpleTextFormatter.SimpleTextFormatter.RetainIterable` | src/main/java/org/spongepowered/api/text/transform/SimpleTextFormatter.java:138-141 | gives the same state and result as `RetainAll` on the iterable's elements |
| `SimpleTextFormatter.SimpleTextFormatter.RetainIterator` | src/main/java/org/spongepowered/api/text/transform/SimpleTextFormatter.java:143-146 | gives the same state and result as `RetainAll` on the iterator's remaining elements, and leaves the iterator exhausted |
| `SimpleTextFormatter.InsertAt` | src/main/java/org/spongepowered/api/text/transform/SimpleTextFormatter.java:98-101 | after an insertion at `i`, elements before `i` keep their places, the inserted ones sit at `i..i+|xs|`, and every later element moves right by `|xs|` |
| `SimpleTextFormatter.RemoveFirst` | src/main/java/org/spongepowered/api/text/transform/SimpleTextFormatter.java:113-116 | defines `parts.remove(element)`: the list with the first occurrence of `e` dropped; one shorter iff `e` was present, and holding no element that was not there before |
| `SimpleTextFormatter.BatchRemove` | src/main/java/org/spongepowered/api/text/transform/SimpleTextFormatter.java:118-136 | defines `removeAll(c)` (`complement` false) and `retainAll(c)` (`complement` true): the elements whose membership in `c` equals `complement`, in order; never longer than the list, and every survivor was in it and has the required membership |
| `SimpleTextFormatter.FirstIndex` | src/main/java/org/spongepowered/api/text/transform/SimpleTextFormatter.java:113-116 | the index of the first occurrence: it holds `e`, and no earlier index does |
| `SimpleTextFormatter.RemoveFirstAbsent` | src/main/java/org/spongepowered/api/text/transform/SimpleTextFormatter.java:113-116 | removing an element that is absent leaves the list unchanged |
| `SimpleTextFormatter.RemoveFirstAt` | src/main/java/org/spongepowered/api/text/transform/SimpleTextFormatter.java:113-116 | if `i` is the first index holding `e`, removing `e` cuts out exactly index `i` |
| `SimpleTextFormatter.RemoveFirstShape` | src/main/java/org/spongepowered/api/text/transform/SimpleTextFormatter.java:113-116 | `remove(e)` leaves the list alone if `e` is absent; otherwise it removes the first occurrence and keeps the rest in order |
| `SimpleTextFormatter.RemoveFirstMultiset` | src/main/java/org/spongepowered/api/text/transform/SimpleTextFormatter.java:113-116 | `remove(e)` takes away one copy of `e` and nothing else |
| `SimpleTextFormatter.BatchRemoveCount` | src/main/java/org/spongepowered/api/text/transform/SimpleTextFormatter.java:118-136 | after `removeAll` or `retainAll`, a kept element occurs as many times as before, duplicates included, and a dropped one does not occur at all |
| `SimpleTextFormatter.BatchRemoveMembers` | src/main/java/org/spongepowered/api/text/transform/SimpleTextFormatter.java:118-136 | an element survives `removeAll(c)` iff it was present and not in `c`; it survives `retainAll(c)` iff it was present and in `c` |
| `SimpleTextFormatter.BatchRemoveAppend` | src/main/java/org/spongepowered/api/text/transform/SimpleTextFormatter.java:118-136 | survivors keep their relative order: filtering `a + b` gives the filtered `a` followed by the filtered `b` |
| `SimpleTextFormatter.BatchRemoveLength` | src/main/java/org/spongepowered/api/text/transform/SimpleTextFormatter.java:118-136 | the list never grows; its length is unchanged iff no element is dropped, and then the list is unchanged |
| `SimpleTextFormatter.BatchRemoveIdempotent` | src/main/java/org/spongepowered/api/text/transform/SimpleTextFormatter.java:118-136 | applying `removeAll(c)` or `retainAll(c)` a second time changes nothing |
| `SimpleTextFormatter.RemoveRetainPartition` | src/main/java/org/spongepowered/api/text/transform/SimpleTextFormatter.java:118-136 | `removeAll(c)` and `retainAll(c)` split the list: together their results hold exactly the original elements |
| `SimpleTextFormatter.FormatInsertAt` | src/main/java/org/spongepowered/api/text/transform/SimpleTextFormatter.java:93-101 | if the `Text` laws hold, formatting after `insert(i, xs)` gives the text of the elements before `i`, then the text of `xs`, then the text of the rest |
| `Iteration.NewArrayList` | src/main/java/org/spongepowered/api/text/transform/SimpleTextFormatter.java:88-91 | `Lists.newArrayList(iterator)` yields the iterator's remaining elements in order and exhausts it |
| `Iteration.NewArrayListOf` | src/main/java/org/spongepowered/api/text/transform/SimpleTextFormatter.java:83-86 | `Lists.newArrayList(iterable)` yields the iterable's elements in iteration order |
| `AbstractConfigDictionary.AbstractConfigDictionary.constructor` | src/main/java/org/spongepowered/api/locale/AbstractConfigDictionary.java:15-19 | a new dictionary has no bundle for any locale |
| `AbstractConfigDictionary.AbstractConfigDictionary.GetBundle` | src/main/java/org/spongepowered/api/locale/AbstractConfigDictionary.java:30-33 | `getBundle` is present iff the locale is stored with a non-null bundle; a locale never stored gives empty |
| `AbstractConfigDictionary.AbstractConfigDictionary.GetNode` | src/main/java/org/spongepowered/api/locale/AbstractConfigDictionary.java:21-28 | `getNode(L)` is empty iff `getBundle(L)` is empty; otherwise it is that bundle's node |
| `AbstractConfigDictionary.AbstractConfigDictionary.SetBundle` | src/main/java/org/spongepowered/api/locale/AbstractConfigDictionary.java:35-38 | afterwards `getBundle(L)` is the given bundle, so the last write wins; every other locale, and the null locale, keeps its bundle |
| `SimpleConfigDictionary.SimpleConfigDictionary.constructor` | src/main/java/org/spongepowered/api/locale/SimpleConfigDictionary.java:42-46 | a new dictionary has no bundle and no node for any locale |
| `SimpleConfigDictionary.SimpleConfigDictionary.Load` | src/main/java/org/spongepowered/api/locale/SimpleConfigDictionary.java:48-53 | a failed underlying load is propagated and the map is unchanged; a successful one stores and returns the child named by `locale.toString()`, so `getNode(L)` is afterwards that result; other locales are untouched |
| `SimpleConfigDictionary.SimpleConfigDictionary.GetNode` | src/main/java/org/spongepowered/api/locale/SimpleConfigDictionary.java:55-62 | `getNode(L)` is empty iff no bundle is stored for `L`; otherwise it is that bundle's node |
| `SimpleConfigDictionary.SimpleConfigDictionary.GetBundle` | src/main/java/org/spongepowered/api/locale/SimpleConfigDictionary.java:64-67 | `getBundle(L)` is present iff a bundle is stored for `L`, and then it is that bundle |
| `SimpleConfigDictionary.SimpleConfigDictionary.SetBundle` | src/main/java/org/spongepowered/api/locale/SimpleConfigDictionary.java:69-72 | a null locale fails with `NullPointer("locale")`; otherwise a null bundle fails with `NullPointer("bundle")`; on failure nothing changes; otherwise the bundle is stored for `L` (last write wins) and other locales are untouched |
| `MultiSourceConfigDictionary.MultiSourceConfigDictionary.constructor` | src/main/java/org/spongepowered/api/locale/MultiSourceConfigDictionary.java:13-15 | a new dictionary has no bundle for any locale |
| `MultiSourceConfigDictionary.MultiSourceConfigDictionary.Load` | src/main/java/org/spongepowered/api/locale/MultiSourceConfigDictionary.java:17-22 | returns the underlying outcome unchanged; on failure nothing is stored; on success the whole node, with no sub-node taken, replaces any bundle for `L`; other locales are untouched |
| `PluginManager.PluginManager.Find` | src/main/java/org/spongepowered/api/plugin/PluginManager.java:57-59 | succeeds iff `fromInstance(x)` is present, with that container; otherwise it fails with plugin-not-found carrying `x` |
| `PluginManager.PluginManager.GetId` | src/main/java/org/spongepowered/api/plugin/PluginManager.java:98-100 | the registered container's id; plugin-not-found for an unknown instance |
| `PluginManager.PluginManager.GetName` | src/main/java/org/spongepowered/api/plugin/PluginManager.java:107-109 | the registered container's name; plugin-not-found for an unknown instance |
| `PluginManager.PluginManager.GetVersion` | src/main/java/org/spongepowered/api/plugin/PluginManager.java:116-118 | the registered container's version; plugin-not-found for an unknown instance |
| `PluginManager.PluginManager.GetServiceManager` | src/main/java/org/spongepowered/api/plugin/PluginManager.java:127-129 | the registered container's service manager; plugin-not-found for an unknown instance |
| `PluginManager.PluginManager.GetDictionary` | src/main/java/org/spongepowered/api/plugin/PluginManager.java:138-140 | for a registered plugin it always gives a dictionary: the first provided one if any, otherwise `NullDictionary` for that plugin; it fails only, with plugin-not-found, for an unknown instance |

## Left out

- The inherited `ConfigDictionary.load` default, the resolver it uses, the configuration parser and `DefaultDictionary.resolveSource` are file-system and class-loader I/O whose code is not part of this model. Their combined outcome is the `source` parameter of each `Load`. The model assumes that this default does not itself write the bundle map.
- `Locale.toString()` and `ConfigurationNode.getNode(key)` are foreign. The model takes them as functions supplied at construction (`localeName`, `child`). Node contents are an abstract type.
- `Text.EMPTY`, `Text.concat` and `TextRepresentable.toText` are foreign. The model takes them as a `Monoid` value and a function parameter. The internals of `SimpleTextTemplateApplier` are left out too; elements compare by identity.
- SimpleTextFormatter.SimpleTextFormatter.constructor: takes a `nat`. With a negative size, `new ArrayList<>(n)` would throw `IllegalArgumentException`; that case is not modelled.
- Null elements and null collections passed to the formatter are not modelled: Dafny references here are non-null. Neither is the resulting `NullPointerException`.
- Java `int` limits on indices and list sizes are not modelled: integers are unbounded.
- `SimpleConfigDictionary.SimpleConfigDictionary.GetNode`, `SimpleConfigDictionary.SimpleConfigDictionary.GetBundle` and both `Load` methods take a non-null locale. In Java, a null locale gives empty from the getters. For `load`, what happens depends on the default, whose code is not part of this model.
- `AbstractRemoteDictionary`, which holds `subject` and `defaultLocale`, is not part of this model. Both values are only stored.
- The abstract `PluginManager` methods `fromInstance`, `getPlugin`, `getLogger`, `getPlugins` and `isLoaded` have no default behaviour. `fromInstance` is the registry parameter; the others are left out.
- `PluginContainer.java` holds only trivial defaults and a `LoggerFactory` call. The container is modelled as the record `PluginManager` reads: id, name and version as strings, plus a service manager. The shown `PluginContainer.java` is a different version of that interface, with optional name and version.
- `ServiceManager.provideFirst` is a function parameter of `GetDictionary`. The internals of `NullDictionary` and the logger are left out.
- `Iterator.remove()` and the unmodifiable-list checks of `ImmutableList` are not modelled. `Iteration.Iterator.Next` requires a remaining element, as the `Iterator` protocol asks callers to check `hasNext()`. `Lists.newArrayList(Iterable)` is modelled as iterating, even when the iterable is a collection; both give the same list.
- Concurrency: there is none in the source, and the model is sequential.
