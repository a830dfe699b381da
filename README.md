# Alkami settings engine, modelled in Dafny

This project models the settings engine of the Alkami configuration libraries,
in both of its generations: `Alkami.Utilities.Configuration` and `Alkami.Framework.Settings`.
A *settings class* derives from `BaseSettings` and declares properties.
A property may carry a `SettingDescriptor` attribute.

- **Descriptors.** When an object is constructed, `BuildSettingDescriptors` builds one descriptor per property.
  - The property is attached with `SetPropertyInfo`.
  - Name, DisplayName and Description get their defaults. The display name comes from `ToDisplayName`.
  - The default value is the property's value at that moment.
  - The descriptors are sorted by `Order` when some order is set.
- **Nested objects (Utilities only).** A property whose type is a class with properties of its own is described recursively.
- **Changes.** `GetChangedProperties` is the diff of the current values against those defaults. Its keys are sorted, and nested keys are dotted (`Outer.Inner`).
- **Rehydrating.** `SetProperties` resolves each key back to a property, converts the string to the property's type and assigns it.
- **Round trip.** Providers keep the diffs:
  - the in-memory provider of each generation;
  - the Utilities property-file store.

  Under the conditions listed below, a settings object saved and loaded again comes back with the values it held.

Reflection is replaced by an explicit schema.
- A `Property` is a plain property (`Leaf`) or a nested settings object (`Composite`).
- It carries its identifier, its type (`Kind`), its attribute (or none) and its initial value.
- Objects are modelled by value:
  - a `State` maps property paths to values (`Value`: Int32, bool, string, enumeration member, an object by its type name, or null);
  - a settings object is a `class` whose `state` and `settingDescriptors` fields the methods update.

Every failure the C# code can throw is an error value (`Wrappers.Error`). This covers:
- ArgumentNull, including the paths of `Validate.That(...).IsNotNull()`;
- NullReference;
- a duplicate key (`Dictionary.Add`);
- InvalidOperation (`First()` on nothing);
- FormatException, OverflowException, InvalidCast, and the ArgumentException of `Enum.Parse`.

Modules, in dependency order:
- `Wrappers`: Option / Result / Outcome and the error kinds.
- `Strings`: the string helpers the code relies on, such as the ordinal string order of `StringComparison.Ordinal`, `Split`/`Join`, `IndexOf`, `Replace`, and the `StringBuilder` connector pattern.
- `Values`: property values, `ToString` and `Convert.ChangeType` / `Enum.Parse`.
- `Sorting`: the stable `OrderBy` on reals.
- `Dicts`: insertion-ordered dictionaries, `Add`, `OrderBy(Key)`.
- `DisplayName` and `FrameworkDisplayName`: `ToDisplayName`.
- `Descriptor` and `FrameworkDescriptor`: the attribute, `SetPropertyInfo`, `CompareTo` and `ToString`.
- `Settings`, with `SettingsDiff`, `SettingsBuild` and `SettingsRoundTrip`: the Utilities `BaseSettings` and what is proved about it.
- `FrameworkSettings` and `FrameworkSettingsFacts`: the Framework `BaseSettings`.
- `PropertyStore`: `PropertySettingStoreProvider`.
- `InMemory` and `FrameworkInMemory`: the two `InMemorySettingProvider`s.

Behaviour of the code that the proofs bring out:
- **The `~~~~` placeholder.** The property-file codec parks an escaped backslash as `~~~~` while it decodes. A value that contains `~` can therefore come back changed: `PropertyStore.TildeBreaksRoundTrip` shows `~~~\` read back as `\~~~`. The round trip is proved for values without `~`.
- **Repeated key segments.** `LocateSettingDescriptor` drops *every* segment equal to the first one before it descends. `Outer.Inner.Outer` is therefore looked up as `Inner` (`SettingsRoundTrip.RepeatedSegmentDropped`).
- **A key below a plain property.** Such a key descends into a null nested list, and `FirstOrDefault` throws ArgumentNull("source") (`SettingsRoundTrip.KeyBelowLeafFails`).
- **CompareTo is not an order.** `SettingDescriptor.CompareTo` ORs ten comparison results together. Its sign is therefore not an order: two descriptors can each compare below the other (`Descriptor.CompareToNotAnOrder`). It is zero exactly when the ten compared fields agree.
- **Unknown keys in the Framework generation.** The Framework `SetProperties` comment says an unknown key is ignored. The code's `.First()` throws on one, and the null check after it can never fail (`FrameworkSettingsFacts.UnknownKeyFails`). The Utilities generation does skip unknown keys (`SettingsRoundTrip.UnknownKeySkipped`).
- **A class-typed property assigned in a derived constructor.** The test class `BankSettings` of the Framework generation assigns such a property in its constructor body. That body runs after the base constructor has captured the defaults, so the captured default is null (`FrameworkSettingsFacts.DerivedConstructorNullDefault`).
  - Once the property holds an object, the diff records the object's type name.
  - Converting that string back to the class type is an InvalidCast.
  - So such an object never loads again (`FrameworkSettingsFacts.ObjectNullDefaultNeverLoads`, `FrameworkInMemory.SavedObjectNeverLoads`).
- **Line breaks in keys.** Escaping covers values only. A key holding a line break is written on one line by WriteLine but read back by ReadLine as two lines, so `a\nb=v` loads as the setting `b=v` (`PropertyStore.KeyLineBreakSplits`).
- **The property-file GetSettings.** Its documentation promises null when nothing exists. The code returns an empty dictionary, and the model follows the code (`PropertyStore.Read`).

## Model

| member | source | states |
|---|---|---|
| DisplayName.ToDisplayName | Alkami.Utilities.Configuration/StringExtensions.cs:18-57 | null is rejected with ArgumentNull("value"); otherwise the result of the character loop is the display name `DisplayNameOf` |
| DisplayName.EmptyIsEmpty | Alkami.Utilities.Configuration/StringExtensions.cs:23-56 | the empty name has the empty display name |
| DisplayName.Interleaving | Alkami.Utilities.Configuration/StringExtensions.cs:26-55 | every character of the name appears in the display name in order, the first at the start and the last at the end; between neighbours exactly one space is inserted when a word boundary is detected there and none otherwise |
| DisplayName.OnlySpacesInserted | Alkami.Utilities.Configuration/StringExtensions.cs:38-51 | every character of the display name is a character of the name or an inserted space |
| DisplayName.OnlyFirstRecased | Alkami.Utilities.Configuration/StringExtensions.cs:32-36 | only the first character is recased: a lower-case first letter becomes upper case, and every other character is kept |
| DisplayName.LengthBound | Alkami.Utilities.Configuration/StringExtensions.cs:48 | the display name is never shorter than the name |
| DisplayName.NoDoubleSpace | Alkami.Utilities.Configuration/StringExtensions.cs:38-51 | a space after one character and a space before the next never coincide, so no double space is written |
| DisplayName.TableName | Alkami.Utilities.Configuration.Tests/Configuration/SettingUtilityTest.cs:7 | "Name" stays "Name" |
| DisplayName.TableDisplayName | Alkami.Utilities.Configuration.Tests/Configuration/SettingUtilityTest.cs:8 | "DisplayName" becomes "Display Name" |
| DisplayName.TableLowercase | Alkami.Utilities.Configuration.Tests/Configuration/SettingUtilityTest.cs:9 | "lowercase" becomes "Lowercase" |
| DisplayName.TableMyName | Alkami.Utilities.Configuration.Tests/Configuration/SettingUtilityTest.cs:10 | "MyName" becomes "My Name" |
| DisplayName.TableHTML | Alkami.Utilities.Configuration.Tests/Configuration/SettingUtilityTest.cs:11 | an all-capitals acronym "HTML" stays one word |
| DisplayName.TablePDFFilename | Alkami.Utilities.Configuration.Tests/Configuration/SettingUtilityTest.cs:12 | "PDFFilename" becomes "PDF Filename": an acronym ends before the capital that starts the next word |
| DisplayName.TableAString | Alkami.Utilities.Configuration.Tests/Configuration/SettingUtilityTest.cs:13 | "AString" becomes "A String" |
| DisplayName.TableSimpleXMLParser | Alkami.Utilities.Configuration.Tests/Configuration/SettingUtilityTest.cs:14 | "SimpleXMLParser" becomes "Simple XML Parser" |
| DisplayName.TableGL1Version | Alkami.Utilities.Configuration.Tests/Configuration/SettingUtilityTest.cs:15 | "GL1Version" becomes "GL 1 Version" |
| DisplayName.TableGL12Version | Alkami.Utilities.Configuration.Tests/Configuration/SettingUtilityTest.cs:16 | "GL12Version" becomes "GL 12 Version": digits stay together |
| DisplayName.TableGL123Version | Alkami.Utilities.Configuration.Tests/Configuration/SettingUtilityTest.cs:17 | "GL123Version" becomes "GL 123 Version" |
| DisplayName.TableNinetyNineBottles | Alkami.Utilities.Configuration.Tests/Configuration/SettingUtilityTest.cs:18 | "99Bottles" becomes "99 Bottles" |
| DisplayName.TableMay5 | Alkami.Utilities.Configuration.Tests/Configuration/SettingUtilityTest.cs:19 | "May5" becomes "May 5" |
| DisplayName.TableBFG9000 | Alkami.Utilities.Configuration.Tests/Configuration/SettingUtilityTest.cs:20 | "BFG9000" becomes "BFG 9000" |
| FrameworkDisplayName.ToDisplayName | Alkami.Framework.Settings/StringExtensions.cs:14-58 | the Framework copy of the loop: null is rejected with ArgumentNull("value"), otherwise the same display name as the Utilities one (so the expected table of the Framework tests is the one above) |
| Strings.IndexOf | Alkami.Utilities.Configuration/Configuration/Settings/Providers/SettingStore/PropertySettingStoreProvider.cs:83 | -1 exactly when the character is absent; otherwise its first position |
| Strings.Split | Alkami.Utilities.Configuration/Configuration/Settings/BaseSettings.cs:212 | at least one part, and no part contains the separator |
| Strings.SplitJoin | Alkami.Utilities.Configuration/Configuration/Settings/BaseSettings.cs:212-218 | splitting parts joined by a separator they do not contain gives the parts back |
| Strings.IndexOfAfter | Alkami.Utilities.Configuration/Configuration/Settings/Providers/SettingStore/PropertySettingStoreProvider.cs:83-87 | for `key=value` with no `=` in the key, the first `=` is right after the key, and the two substrings are the key and the value |
| Strings.AppendPart | Alkami.Utilities.Configuration/Configuration/Settings/SettingDescriptorAttribute.cs:129-133 | one `if (set) { sb.Append(connector + text); connector = ", "; }` step of ToString |
| Strings.StepWritten | Alkami.Utilities.Configuration/Configuration/Settings/SettingDescriptorAttribute.cs:125-186 | after each step the builder holds the shown parts so far joined by the separator |
| Strings.ShownHas | Alkami.Utilities.Configuration/Configuration/Settings/SettingDescriptorAttribute.cs:125-186 | a text is written exactly when some shown part carries it |
| Strings.ShownNone | Alkami.Utilities.Configuration/Configuration/Settings/SettingDescriptorAttribute.cs:125-186 | nothing is written exactly when no part is shown |
| Strings.ShownFirst | Alkami.Utilities.Configuration/Configuration/Settings/SettingDescriptorAttribute.cs:129-133 | a shown first part is written first, without a connector |
| Strings.LessIrreflexive | Alkami.Utilities.Configuration/Configuration/Settings/SettingDescriptorAttribute.cs:109-113 | the ordinal order of `string.Compare(..., StringComparison.Ordinal)` is irreflexive |
| Strings.LessTotal | Alkami.Utilities.Configuration/Configuration/Settings/SettingDescriptorAttribute.cs:109-113 | and total |
| Strings.LessAsymmetric | Alkami.Utilities.Configuration/Configuration/Settings/SettingDescriptorAttribute.cs:109-113 | and asymmetric |
| Strings.LessTransitive | Alkami.Utilities.Configuration/Configuration/Settings/SettingDescriptorAttribute.cs:109-113 | and transitive |
| Values.ParseInt32 | Alkami.Utilities.Configuration/Configuration/Settings/BaseSettings.cs:198 | a converted Int32 lies in the 32-bit range, and the empty string never converts |
| Values.IntRoundTrip | Alkami.Utilities.Configuration/Configuration/Settings/BaseSettings.cs:160-198 | every Int32 written with ToString converts back to itself |
| Values.IntOverflow | Alkami.Utilities.Configuration/Configuration/Settings/BaseSettings.cs:198 | a number written outside the Int32 range is an OverflowException |
| Values.DigitsRoundTrip | Alkami.Utilities.Configuration/Configuration/Settings/BaseSettings.cs:160-198 | the decimal digits of a natural number read back as that number |
| Values.Format | Alkami.Utilities.Configuration/Configuration/Settings/BaseSettings.cs:157 | value.ToString(): parsing it back by the value's kind gives the value again for every non-object kind (Values.ParseFormat), and fails for an object's type name (Values.ObjectFormatFails) |
| Values.Parse | Alkami.Utilities.Configuration/Configuration/Settings/BaseSettings.cs:189-199 | a converted value has the property's type and is not null; a string property takes the string as it is; a class-typed property is an InvalidCast |
| Values.ParseFormat | Alkami.Utilities.Configuration/Configuration/Settings/BaseSettings.cs:160-199 | a non-null value of a plain type, written with ToString, converts back to itself (enumeration members by name, booleans as True/False) |
| Values.ObjectFormatFails | Alkami.Utilities.Configuration/Configuration/Settings/BaseSettings.cs:160-199 | an object written as its type name never converts back |
| Values.BoolIgnoresCase | Alkami.Utilities.Configuration/Configuration/Settings/BaseSettings.cs:198 | booleans are read ignoring case, and anything other than true or false is a FormatException |
| Sorting.OrderBySorted | Alkami.Utilities.Configuration/Configuration/Settings/BaseSettings.cs:57 | OrderBy(o => o.Order) is sorted by order |
| Sorting.OrderByPermutation | Alkami.Utilities.Configuration/Configuration/Settings/BaseSettings.cs:57 | and a permutation of its input |
| Sorting.OrderByStable | Alkami.Utilities.Configuration/Configuration/Settings/BaseSettings.cs:57 | and stable: descriptors of equal order keep their relative order |
| Sorting.OrderBySortedUnchanged | Alkami.Utilities.Configuration/Configuration/Settings/BaseSettings.cs:57 | an already sorted list is returned unchanged |
| Dicts.Add | Alkami.Utilities.Configuration/Configuration/Settings/BaseSettings.cs:160 | Dictionary.Add fails with a duplicate key exactly when the key is present; otherwise the entry is appended, and distinct keys stay distinct |
| Dicts.SortByKey | Alkami.Utilities.Configuration/Configuration/Settings/BaseSettings.cs:131 | the reordered dictionary is a permutation of the original one |
| Dicts.SortByKeySorted | Alkami.Utilities.Configuration/Configuration/Settings/BaseSettings.cs:131 | its keys are in ascending ordinal order (the model's stand-in for the culture comparer, see Left out) |
| Dicts.SortByKeySameMap | Alkami.Utilities.Configuration/Configuration/Settings/BaseSettings.cs:131 | and it maps every key to the same value as before |
| Descriptor.SettingDescriptor.HasNestedSettingDescriptors | Alkami.Utilities.Configuration/Configuration/Settings/SettingDescriptorAttribute.cs:91-94 | true exactly when the nested list exists and is not empty; only then does the diff recurse instead of comparing a value (Settings.ChangesOf) |
| Descriptor.SetPropertyInfo | Alkami.Utilities.Configuration/Configuration/Settings/SettingDescriptorAttribute.cs:101-105 | a null property is rejected with ArgumentNull("propertyInfo"); otherwise only Property changes |
| Descriptor.CompareTo | Alkami.Utilities.Configuration/Configuration/Settings/SettingDescriptorAttribute.cs:107-119 | a null other is a NullReferenceException (`other.Name`); otherwise zero exactly when the ten compared fields (name, display name, description, order, help id and the five flags) are equal |
| Descriptor.CompareToIgnores | Alkami.Utilities.Configuration/Configuration/Settings/SettingDescriptorAttribute.cs:107-119 | the default value, the property and the nested list take no part in the comparison |
| Descriptor.CompareToNotAnOrder | Alkami.Utilities.Configuration/Configuration/Settings/SettingDescriptorAttribute.cs:107-119 | two descriptors can each compare below the other |
| Descriptor.ToString | Alkami.Utilities.Configuration/Configuration/Settings/SettingDescriptorAttribute.cs:125-187 | the text is the set slots joined by ", ", in declaration order |
| Descriptor.SlotsAt | Alkami.Utilities.Configuration/Configuration/Settings/SettingDescriptorAttribute.cs:127-184 | the eleven slots and the condition under which each is shown: a non-empty name, display name, description or help id; a positive order; a set flag; IsMultiline only without IsHtml; a non-empty nested list with its count |
| Descriptor.RenderWritten | Alkami.Utilities.Configuration/Configuration/Settings/SettingDescriptorAttribute.cs:125-186 | the eleven append steps from an empty builder write exactly the joined slots |
| Descriptor.ToStringEmpty | Alkami.Utilities.Configuration/Configuration/Settings/SettingDescriptorAttribute.cs:125-186 | the text is empty exactly when no slot is set |
| Descriptor.ToStringStartsWithName | Alkami.Utilities.Configuration/Configuration/Settings/SettingDescriptorAttribute.cs:129-133 | a set name is written first, with no connector before it |
| Descriptor.ToStringHtml | Alkami.Utilities.Configuration/Configuration/Settings/SettingDescriptorAttribute.cs:169-173 | IsHtml is written exactly when it is set |
| Descriptor.ToStringMultiline | Alkami.Utilities.Configuration/Configuration/Settings/SettingDescriptorAttribute.cs:169-179 | IsMultiline is written exactly when it is set and IsHtml is not |
| Descriptor.ToStringOrder | Alkami.Utilities.Configuration/Configuration/Settings/SettingDescriptorAttribute.cs:144-148 | the order is written exactly when it is positive |
| FrameworkDescriptor.SetPropertyInfo | Alkami.Framework.Settings/SettingDescriptorAttribute.cs:78-84 | a null property is rejected with ArgumentNull("propertyInfo"); otherwise only Property changes |
| FrameworkDescriptor.ToString | Alkami.Framework.Settings/SettingDescriptorAttribute.cs:90-136 | the text is the set slots joined by ", " |
| FrameworkDescriptor.SlotsAt | Alkami.Framework.Settings/SettingDescriptorAttribute.cs:92-133 | the eight slots of the Framework attribute (no IsHtml, IsMultiline or nested list) and when each is shown |
| FrameworkDescriptor.RenderWritten | Alkami.Framework.Settings/SettingDescriptorAttribute.cs:90-135 | the eight append steps write exactly the joined slots |
| FrameworkDescriptor.ToStringEmpty | Alkami.Framework.Settings/SettingDescriptorAttribute.cs:90-136 | the text is empty exactly when no slot is set |
| FrameworkDescriptor.ToStringStartsWithName | Alkami.Framework.Settings/SettingDescriptorAttribute.cs:94-98 | a set name is written first |
| FrameworkDescriptor.ToStringOrder | Alkami.Framework.Settings/SettingDescriptorAttribute.cs:109-113 | the order is written exactly when it is positive |
| FrameworkDescriptor.ToStringRequired | Alkami.Framework.Settings/SettingDescriptorAttribute.cs:119-123 | IsRequired is written exactly when it is set |
| FrameworkDescriptor.ToStringSecure | Alkami.Framework.Settings/SettingDescriptorAttribute.cs:124-128 | IsSecure is written exactly when it is set |
| FrameworkDescriptor.ToStringEnvironmental | Alkami.Framework.Settings/SettingDescriptorAttribute.cs:129-133 | IsEnvironmental is written exactly when it is set |
| Settings.FirstNamed | Alkami.Utilities.Configuration/Configuration/Settings/BaseSettings.cs:213 | FirstOrDefault by name: the descriptor found is the first in the list with that name, and nothing is found exactly when no descriptor has it |
| Settings.Without | Alkami.Utilities.Configuration/Configuration/Settings/BaseSettings.cs:218 | parts.Where(x => x != parts[0]) keeps only parts different from the first one |
| Settings.FewerSegments | Alkami.Utilities.Configuration/Configuration/Settings/BaseSettings.cs:212-218 | the key passed down has fewer segments, so the recursion of LocateSettingDescriptor ends |
| Settings.IsPropertyCustomClass | Alkami.Utilities.Configuration/Configuration/Settings/BaseSettings.cs:112-116 | a nested settings object: a class of its own that declares at least one property; such a property gets a nested list and no entry of its own in the diff (SettingsDiff.LeavesOf) |
| Settings.Descriptors | Alkami.Utilities.Configuration/Configuration/Settings/BaseSettings.cs:50-59 | the root list: one descriptor per declared property, sorted by Order only when some order is away from zero (SettingsBuild.DescribeAllShape, SettingsBuild.SortIfOrderedMeaning) |
| Settings.ChangesOf | Alkami.Utilities.Configuration/Configuration/Settings/BaseSettings.cs:145-163 | one descriptor of the diff: entries are only appended, and keys stay distinct; a nested object is recursed into under "Name.", a changed plain value is added; equal to the flat diff of its leaves (SettingsDiff.ChangesOfLeaves) |
| Settings.ChangesAll | Alkami.Utilities.Configuration/Configuration/Settings/BaseSettings.cs:142-164 | the diff of a list of descriptors in order: entries are only appended, and keys stay distinct; equal to the flat diff of all leaves (SettingsDiff.ChangesAllLeaves), failing exactly on a null leaf or a repeated key (SettingsDiff.DiffLeavesSucceeds) |
| Settings.ChangedProperties | Alkami.Utilities.Configuration/Configuration/Settings/BaseSettings.cs:126-132 | fails exactly when the unsorted diff fails; otherwise its entries, with distinct keys in ascending order; these are exactly the changed leaves with their formatted values (SettingsDiff.ChangedPropertiesMeaning) |
| Settings.Locate | Alkami.Utilities.Configuration/Configuration/Settings/BaseSettings.cs:210-222 | LocateSettingDescriptor: an addressable leaf key finds that leaf (SettingsRoundTrip.LocateLeaf); every repetition of the head segment is dropped (SettingsRoundTrip.RepeatedSegmentDropped); a key below a plain property fails (SettingsRoundTrip.KeyBelowLeafFails) |
| Settings.ApplySetting | Alkami.Utilities.Configuration/Configuration/Settings/BaseSettings.cs:181-200 | one setting: an unknown key changes nothing (SettingsRoundTrip.UnknownKeySkipped); a found property gets the converted value at its path and nothing else changes (SettingsRoundTrip.ApplyTarget) |
| Settings.Applied | Alkami.Utilities.Configuration/Configuration/Settings/BaseSettings.cs:178-206 | the settings applied in dictionary order, the first failure stopping the rest; every entry's value lands at its target (SettingsRoundTrip.AppliedTargets) |
| Settings.BaseSettings.constructor | Alkami.Utilities.Configuration/Configuration/Settings/BaseSettings.cs:21-26 | the object starts in the initial state of its class and its descriptors are built from that state |
| Settings.BaseSettings.BuildSettingDescriptors | Alkami.Utilities.Configuration/Configuration/Settings/BaseSettings.cs:50-59 | the descriptors become those of the class, sorted by order when some order is set; the values are untouched |
| Settings.BaseSettings.BuildSettingDescriptorsForType | Alkami.Utilities.Configuration/Configuration/Settings/BaseSettings.cs:61-110 | the loop describes every declared property, in order |
| Settings.BaseSettings.BuildSettingDescriptor | Alkami.Utilities.Configuration/Configuration/Settings/BaseSettings.cs:67-108 | one property's descriptor: its defaulted attribute, with the nested list of a nested object built and sorted |
| Settings.BaseSettings.DefaultedDescriptor | Alkami.Utilities.Configuration/Configuration/Settings/BaseSettings.cs:70-96 | the attribute (a blank one when absent) with the property attached and name, display name, description and default value defaulted |
| Settings.BaseSettings.SetValue | Alkami.Utilities.Configuration.Tests/Configuration/SettingProviderTest.cs:43-53 | a property setter changes that one value and nothing else |
| Settings.BaseSettings.GetChangedProperties | Alkami.Utilities.Configuration/Configuration/Settings/BaseSettings.cs:126-132 | the diff of the current state against the descriptors, ordered by key |
| Settings.BaseSettings.GetChangedPropertiesInternal | Alkami.Utilities.Configuration/Configuration/Settings/BaseSettings.cs:142-164 | the loop over the descriptors, each one diffed in order into the dictionary |
| Settings.BaseSettings.GetChangedPropertiesOf | Alkami.Utilities.Configuration/Configuration/Settings/BaseSettings.cs:145-163 | one descriptor: recurse into a nested object under "Name.", or add a changed plain value; a null value is a NullReferenceException |
| Settings.BaseSettings.SetProperties | Alkami.Utilities.Configuration/Configuration/Settings/BaseSettings.cs:173-208 | a null dictionary changes nothing; otherwise the settings are applied in order, and the first failure stops it; the descriptors stay as they were |
| SettingsDiff.Prepend | Alkami.Utilities.Configuration/Configuration/Settings/BaseSettings.cs:152 | the nested prefix adds the descriptor's name in front of every leaf of the nested object |
| SettingsDiff.LeavesOf | Alkami.Utilities.Configuration/Configuration/Settings/BaseSettings.cs:145-162 | the plain properties under a descriptor, each with a non-empty name path and its attached property |
| SettingsDiff.LeavesAll | Alkami.Utilities.Configuration/Configuration/Settings/BaseSettings.cs:142-164 | the same for a list of descriptors |
| SettingsDiff.DiffLeavesAppend | Alkami.Utilities.Configuration/Configuration/Settings/BaseSettings.cs:145-163 | diffing two lists of leaves one after the other is diffing their concatenation |
| SettingsDiff.DiffLeavesPrepend | Alkami.Utilities.Configuration/Configuration/Settings/BaseSettings.cs:152 | diffing leaves under a prefixed name is diffing them with the prefix extended by "Name." |
| SettingsDiff.ChangesOfLeaves | Alkami.Utilities.Configuration/Configuration/Settings/BaseSettings.cs:145-163 | the recursion over one descriptor equals the flat diff over its leaves |
| SettingsDiff.ChangesAllLeaves | Alkami.Utilities.Configuration/Configuration/Settings/BaseSettings.cs:142-164 | the recursion over a list equals the flat diff over all its leaves |
| SettingsDiff.DiffLeavesResult | Alkami.Utilities.Configuration/Configuration/Settings/BaseSettings.cs:157-160 | a successful diff appends exactly the changed leaves, with distinct keys, and no leaf was null |
| SettingsDiff.DiffLeavesSucceeds | Alkami.Utilities.Configuration/Configuration/Settings/BaseSettings.cs:157-160 | with no null leaf and distinct resulting keys, the diff succeeds |
| SettingsDiff.NothingChanged | Alkami.Utilities.Configuration/Configuration/Settings/BaseSettings.cs:157 | leaves that all hold their defaults contribute nothing |
| SettingsDiff.ChangedLeavesHas | Alkami.Utilities.Configuration/Configuration/Settings/BaseSettings.cs:157-160 | an entry is in the diff exactly when some leaf changed and the entry is its dotted key and its value's string |
| SettingsDiff.ChangedPropertiesLeaves | Alkami.Utilities.Configuration/Configuration/Settings/BaseSettings.cs:126-164 | GetChangedProperties is the changed leaves sorted by key |
| SettingsDiff.ChangedPropertiesMeaning | Alkami.Utilities.Configuration/Configuration/Settings/BaseSettings.cs:126-164 | the keys are sorted and the entries are exactly the changed leaves, keyed by the dotted name |
| SettingsDiff.UntouchedNoChanges | Alkami.Utilities.Configuration/Configuration/Settings/BaseSettings.cs:142-164 | an object whose leaves hold their defaults has no changes |
| SettingsDiff.NullLeafFails | Alkami.Utilities.Configuration/Configuration/Settings/BaseSettings.cs:148-157 | a null plain value makes the diff fail |
| SettingsBuild.DefaultedFields | Alkami.Utilities.Configuration/Configuration/Settings/BaseSettings.cs:80-96 | each defaulted field: the property attached, the name defaulted to the identifier, the display name to the name's display name, the description to "", and a null default to the current value |
| SettingsBuild.DefaultedKeeps | Alkami.Utilities.Configuration/Configuration/Settings/BaseSettings.cs:80-96 | every other attribute field is kept |
| SettingsBuild.DescribeNested | Alkami.Utilities.Configuration/Configuration/Settings/BaseSettings.cs:98-106 | a nested object's descriptor gets the sorted descriptors of its class; any other keeps its nested list |
| SettingsBuild.DescribeName | Alkami.Utilities.Configuration/Configuration/Settings/BaseSettings.cs:83-84 | every descriptor has a name, a non-empty one for a non-empty identifier |
| SettingsBuild.DescribeAllShape | Alkami.Utilities.Configuration/Configuration/Settings/BaseSettings.cs:67-109 | one descriptor per declared property, in declaration order |
| SettingsBuild.SortIfOrderedMeaning | Alkami.Utilities.Configuration/Configuration/Settings/BaseSettings.cs:55-58 | the sorting step gives a permutation, sorted when some order is set, stable for equal orders, and the identity otherwise |
| SettingsBuild.LeavesAllHas | Alkami.Utilities.Configuration/Configuration/Settings/BaseSettings.cs:142-164 | a leaf of a list is a leaf of one of its descriptors |
| SettingsBuild.LeavesPermutation | Alkami.Utilities.Configuration/Configuration/Settings/BaseSettings.cs:57 | reordering descriptors does not change which leaves there are |
| SettingsBuild.DescribeCaptured | Alkami.Utilities.Configuration/Configuration/Settings/BaseSettings.cs:94-101 | without attribute defaults, every leaf's default is the value it had when described |
| SettingsBuild.DescribeAllCaptured | Alkami.Utilities.Configuration/Configuration/Settings/BaseSettings.cs:61-110 | the same for a whole list |
| SettingsBuild.FreshCaptured | Alkami.Utilities.Configuration/Configuration/Settings/BaseSettings.cs:21-26 | the constructor's descriptors capture the initial state |
| SettingsBuild.FreshNoChanges | Alkami.Utilities.Configuration/Configuration/Settings/BaseSettings.cs:126-164 | a new object whose attributes give no DefaultValue of their own and which has no null leaf has no changes (an attribute default that differs from the initial value is a change) |
| SettingsBuild.FreshNullFails | Alkami.Utilities.Configuration/Configuration/Settings/BaseSettings.cs:148-157 | a new object with a null leaf cannot be diffed |
| SettingsRoundTrip.FirstNamedFinds | Alkami.Utilities.Configuration/Configuration/Settings/BaseSettings.cs:213 | with distinct names, looking a descriptor's name up finds that descriptor |
| SettingsRoundTrip.WithoutAbsent | Alkami.Utilities.Configuration/Configuration/Settings/BaseSettings.cs:218 | the filter keeps parts that do not repeat the first one |
| SettingsRoundTrip.WithoutHead | Alkami.Utilities.Configuration/Configuration/Settings/BaseSettings.cs:218 | when the first segment does not repeat, the key passed down is the rest of the key |
| SettingsRoundTrip.RepeatedSegmentDropped | Alkami.Utilities.Configuration/Configuration/Settings/BaseSettings.cs:218 | `Outer.Inner.Outer` is looked up below Outer as `Inner` |
| SettingsRoundTrip.LocateLeaf | Alkami.Utilities.Configuration/Configuration/Settings/BaseSettings.cs:210-222 | a leaf's dotted key locates that leaf's object and descriptor |
| SettingsRoundTrip.ApplyTarget | Alkami.Utilities.Configuration/Configuration/Settings/BaseSettings.cs:182-201 | a setting that resolves writes its converted value at its target path |
| SettingsRoundTrip.TargetPaths | Alkami.Utilities.Configuration/Configuration/Settings/BaseSettings.cs:182-201 | the target path of each setting, in order |
| SettingsRoundTrip.AppliedTargets | Alkami.Utilities.Configuration/Configuration/Settings/BaseSettings.cs:179-207 | settings that all resolve are applied without failure, and each path ends with the value of the last setting for it |
| SettingsRoundTrip.ChangedLeafTarget | Alkami.Utilities.Configuration/Configuration/Settings/BaseSettings.cs:157-201 | a changed leaf's entry resolves to that leaf with its current value |
| SettingsRoundTrip.EntriesResolve | Alkami.Utilities.Configuration/Configuration/Settings/BaseSettings.cs:126-208 | every entry of GetChangedProperties resolves and restores its value |
| SettingsRoundTrip.ChangedLeafWritten | Alkami.Utilities.Configuration/Configuration/Settings/BaseSettings.cs:126-208 | every changed leaf is written back when the changes are applied |
| SettingsRoundTrip.RoundTripTree | Alkami.Utilities.Configuration/Configuration/Settings/BaseSettings.cs:126-208 | applying an object's changes to an object holding the captured defaults restores every leaf |
| SettingsRoundTrip.RoundTrip | Alkami.Utilities.Configuration.Tests/Configuration/SettingProviderTest.cs:43-79 | a new object with the changes applied holds every leaf value of the saved object |
| SettingsRoundTrip.UnknownKeySkipped | Alkami.Utilities.Configuration/Configuration/Settings/BaseSettings.cs:185-206 | a key whose first segment names no descriptor is ignored |
| SettingsRoundTrip.KeyBelowLeafFails | Alkami.Utilities.Configuration/Configuration/Settings/BaseSettings.cs:212-218 | a key that goes on below a plain property fails with ArgumentNull("source") |
| FrameworkSettings.FirstNamed | Alkami.Framework.Settings/BaseSettings.cs:146 | Where(...).First() by name: the descriptor found is the first in the list with that name, and nothing is found exactly when none has it |
| FrameworkSettings.HasOrderSnoc | Alkami.Framework.Settings/BaseSettings.cs:79-81 | the flag set in the loop means that some descriptor so far has a non-zero order |
| FrameworkSettings.ChangesAll | Alkami.Framework.Settings/BaseSettings.cs:113-123 | the flat diff in descriptor order, only appending and keeping keys distinct: the entries are exactly the changed properties' names and values (FrameworkSettingsFacts.ChangesAllResult), failing exactly on a null property, value or name (FrameworkSettingsFacts.ChangesAllSucceeds) |
| FrameworkSettings.ChangedProperties | Alkami.Framework.Settings/BaseSettings.cs:106-126 | fails exactly when the unsorted diff fails; otherwise its entries, with distinct keys in ascending order; these are exactly the changed entries (FrameworkSettingsFacts.ChangedPropertiesMeaning) |
| FrameworkSettings.ApplySetting | Alkami.Framework.Settings/BaseSettings.cs:145-163 | one setting: the first descriptor of that name gets the converted value (FrameworkSettingsFacts.ApplySettingOk); an unknown key is InvalidOperation (FrameworkSettingsFacts.UnknownKeyFails) |
| FrameworkSettings.Applied | Alkami.Framework.Settings/BaseSettings.cs:143-169 | the settings applied in order; it passes exactly when every key is known and its value converts (FrameworkSettingsFacts.AppliedPasses) |
| FrameworkSettings.BaseSettings.constructor | Alkami.Framework.Settings/BaseSettings.cs:21-26 | the object starts in the initial state of its class, and its descriptors are built from that state |
| FrameworkSettings.BaseSettings.BuildSettingDescriptors | Alkami.Framework.Settings/BaseSettings.cs:44-96 | the descriptors of the attributed properties, in declaration order, sorted by order when one is non-zero |
| FrameworkSettings.BaseSettings.DescribeProperty | Alkami.Framework.Settings/BaseSettings.cs:57-77 | an attributed property's descriptor: property attached, name, display name, description and default value defaulted |
| FrameworkSettings.BaseSettings.SetValue | Alkami.Framework.Settings.Test/SettingProviderTest.cs:29-34 | a property setter changes that one value and nothing else |
| FrameworkSettings.BaseSettings.GetChangedProperties | Alkami.Framework.Settings/BaseSettings.cs:106-126 | the loop computes the diff of the current state, ordered by key |
| FrameworkSettings.BaseSettings.SetProperties | Alkami.Framework.Settings/BaseSettings.cs:135-171 | a null dictionary is ArgumentNull("settings"), and nothing changes; otherwise the settings are applied in order, the first failure stopping it |
| FrameworkSettingsFacts.DefaultedFields | Alkami.Framework.Settings/BaseSettings.cs:61-77 | each defaulted field of an attributed property |
| FrameworkSettingsFacts.DefaultedKeeps | Alkami.Framework.Settings/BaseSettings.cs:61-77 | every other attribute field is kept |
| FrameworkSettingsFacts.DescribeAllHas | Alkami.Framework.Settings/BaseSettings.cs:54-89 | a descriptor is built exactly when some property carries the attribute it is defaulted from |
| FrameworkSettingsFacts.DescribeAllLength | Alkami.Framework.Settings/BaseSettings.cs:54-89 | at most one descriptor per property, exactly one when every property is attributed |
| FrameworkSettingsFacts.SortIfOrderedMeaning | Alkami.Framework.Settings/BaseSettings.cs:79-92 | the sorting step gives a permutation, sorted when some order is set, stable for equal orders, and the identity otherwise |
| FrameworkSettingsFacts.DescriptorsHas | Alkami.Framework.Settings/BaseSettings.cs:44-96 | the built descriptors are exactly the defaulted attributes of the attributed properties |
| FrameworkSettingsFacts.ChangesAllResult | Alkami.Framework.Settings/BaseSettings.cs:113-123 | a successful diff appends exactly the changed properties, with distinct keys, and no value or property was null |
| FrameworkSettingsFacts.ChangesAllSucceeds | Alkami.Framework.Settings/BaseSettings.cs:113-123 | when nothing is null and the keys are distinct, the diff succeeds |
| FrameworkSettingsFacts.ChangedPropertiesSucceeds | Alkami.Framework.Settings/BaseSettings.cs:106-126 | GetChangedProperties succeeds exactly under those conditions |
| FrameworkSettingsFacts.ChangedEntriesHas | Alkami.Framework.Settings/BaseSettings.cs:118-121 | an entry is in the diff exactly when some descriptor's value changed and the entry is its name and its value's string |
| FrameworkSettingsFacts.ChangedPropertiesMeaning | Alkami.Framework.Settings/BaseSettings.cs:106-126 | the keys are sorted and the entries are exactly the changed properties |
| FrameworkSettingsFacts.ApplySettingOk | Alkami.Framework.Settings/BaseSettings.cs:146-163 | a setting applies exactly when its key names a descriptor with a property and its string converts |
| FrameworkSettingsFacts.AppliedPasses | Alkami.Framework.Settings/BaseSettings.cs:143-169 | SetProperties succeeds exactly when every setting applies |
| FrameworkSettingsFacts.UnknownKeyFails | Alkami.Framework.Settings/BaseSettings.cs:146-148 | an unknown key is an InvalidOperationException, so no dictionary containing it applies |
| FrameworkSettingsFacts.FirstNamedFinds | Alkami.Framework.Settings/BaseSettings.cs:146 | with distinct names, looking a descriptor's name up finds that descriptor |
| FrameworkSettingsFacts.AppliedTargets | Alkami.Framework.Settings/BaseSettings.cs:143-169 | settings that all resolve are applied without failure, and each property ends with the value of the last setting for it |
| FrameworkSettingsFacts.ChangedTarget | Alkami.Framework.Settings/BaseSettings.cs:118-163 | a changed property's entry resolves to that property with its current value |
| FrameworkSettingsFacts.EntriesResolve | Alkami.Framework.Settings/BaseSettings.cs:106-163 | every entry of GetChangedProperties resolves and restores its value |
| FrameworkSettingsFacts.ChangedWritten | Alkami.Framework.Settings/BaseSettings.cs:106-163 | every changed property is written back |
| FrameworkSettingsFacts.RoundTripFlat | Alkami.Framework.Settings/BaseSettings.cs:106-171 | applying an object's changes to an object holding the captured defaults restores every described property |
| FrameworkSettingsFacts.FreshCaptured | Alkami.Framework.Settings/BaseSettings.cs:75-77 | without attribute defaults, the constructor's descriptors capture the initial state |
| FrameworkSettingsFacts.DescriptorsAddressable | Alkami.Framework.Settings/BaseSettings.cs:57-77 | the built descriptors carry their properties and, per property, its name |
| FrameworkSettingsFacts.RoundTrip | Alkami.Framework.Settings.Test/SettingProviderTest.cs:27-46 | a new object with the changes applied holds every described value of the saved object |
| FrameworkSettingsFacts.InitialStateValue | Alkami.Framework.Settings/BaseSettings.cs:21-26 | with distinct identifiers, a new object holds each property's initial value |
| FrameworkSettingsFacts.DerivedConstructorNullDefault | Alkami.Framework.Settings.Test/BankSettings.cs:22-25 | a property that is still null when the base constructor runs gets a null default |
| FrameworkSettingsFacts.ObjectNullDefaultNeverLoads | Alkami.Framework.Settings/BaseSettings.cs:118-160 | a class-typed property with a null default that holds an object is saved as its type name, and those changes never load |
| PropertyStore.Escape | Alkami.Utilities.Configuration/Configuration/Settings/Providers/SettingStore/PropertySettingStoreProvider.cs:55 | backslash, LF and CR become `\\`, `\n` and `\r`, each character on its own (PropertyStore.EscapeTokens), so no line break is left (PropertyStore.EscapeNoLineBreak) |
| PropertyStore.Unescape | Alkami.Utilities.Configuration/Configuration/Settings/Providers/SettingStore/PropertySettingStoreProvider.cs:89 | undoes Escape for every value without `~` (PropertyStore.UnescapeEscape), and not for some with `~` (PropertyStore.TildeBreaksRoundTrip) |
| PropertyStore.PatternsAre | Alkami.Utilities.Configuration/Configuration/Settings/Providers/SettingStore/PropertySettingStoreProvider.cs:55-89 | the seven Replace calls of the codec, in order |
| PropertyStore.EscapeTokens | Alkami.Utilities.Configuration/Configuration/Settings/Providers/SettingStore/PropertySettingStoreProvider.cs:55 | escaping rewrites each backslash, LF and CR on its own |
| PropertyStore.UnescapeEscape | Alkami.Utilities.Configuration/Configuration/Settings/Providers/SettingStore/PropertySettingStoreProvider.cs:55-89 | a value without `~` reads back as it was written |
| PropertyStore.EscapeNoLineBreak | Alkami.Utilities.Configuration/Configuration/Settings/Providers/SettingStore/PropertySettingStoreProvider.cs:55 | an escaped value has no line break, so it stays on its line |
| PropertyStore.EscapeTildes | Alkami.Utilities.Configuration/Configuration/Settings/Providers/SettingStore/PropertySettingStoreProvider.cs:55 | `~~~\` is written as `~~~\\` |
| PropertyStore.UnescapeTildes | Alkami.Utilities.Configuration/Configuration/Settings/Providers/SettingStore/PropertySettingStoreProvider.cs:89 | `~~~\\` is read as `\~~~` |
| PropertyStore.TildeBreaksRoundTrip | Alkami.Utilities.Configuration/Configuration/Settings/Providers/SettingStore/PropertySettingStoreProvider.cs:55-89 | a value with tildes before a backslash does not read back as it was written |
| PropertyStore.SettingLines | Alkami.Utilities.Configuration/Configuration/Settings/Providers/SettingStore/PropertySettingStoreProvider.cs:52-56 | one line per setting, in order |
| PropertyStore.ParseLine | Alkami.Utilities.Configuration/Configuration/Settings/Providers/SettingStore/PropertySettingStoreProvider.cs:80-90 | a line gives an entry exactly when it is not blank, not a comment and has a `=`; the key is what precedes the first `=` and the value is the unescaped rest |
| PropertyStore.Load | Alkami.Utilities.Configuration/Configuration/Settings/Providers/SettingStore/PropertySettingStoreProvider.cs:78-92 | reading keeps what was read before, and keys stay distinct |
| PropertyStore.HeaderSkipped | Alkami.Utilities.Configuration/Configuration/Settings/Providers/SettingStore/PropertySettingStoreProvider.cs:51-81 | the type-name header is skipped as a comment |
| PropertyStore.SettingLineParsed | Alkami.Utilities.Configuration/Configuration/Settings/Providers/SettingStore/PropertySettingStoreProvider.cs:55-89 | a written setting line with a storable key and a value without `~` reads back as that setting |
| PropertyStore.LoadSettingLines | Alkami.Utilities.Configuration/Configuration/Settings/Providers/SettingStore/PropertySettingStoreProvider.cs:52-92 | the lines of distinct storable settings read back as those settings |
| PropertyStore.LoadSaved | Alkami.Utilities.Configuration/Configuration/Settings/Providers/SettingStore/PropertySettingStoreProvider.cs:46-100 | a saved file reads back as the saved dictionary |
| PropertyStore.DuplicateKeyFails | Alkami.Utilities.Configuration/Configuration/Settings/Providers/SettingStore/PropertySettingStoreProvider.cs:89 | a key met twice is the dictionary's ArgumentException |
| PropertyStore.NoDelimiterIgnored | Alkami.Utilities.Configuration/Configuration/Settings/Providers/SettingStore/PropertySettingStoreProvider.cs:83-84 | a line without `=` is ignored |
| PropertyStore.Saved | Alkami.Utilities.Configuration/Configuration/Settings/Providers/SettingStore/PropertySettingStoreProvider.cs:46-58 | a file is created or rewritten only when there are settings or the file exists, its text being the header and setting lines each ended by WriteLine; other files are untouched |
| PropertyStore.ReadWrittenLine | Alkami.Utilities.Configuration/Configuration/Settings/Providers/SettingStore/PropertySettingStoreProvider.cs:55-80 | a written line without a line break is read back by ReadLine as it was written |
| PropertyStore.ReadText | Alkami.Utilities.Configuration/Configuration/Settings/Providers/SettingStore/PropertySettingStoreProvider.cs:51-80 | lines without line breaks survive WriteLine followed by ReadLine |
| PropertyStore.LineBreakSplits | Alkami.Utilities.Configuration/Configuration/Settings/Providers/SettingStore/PropertySettingStoreProvider.cs:55-80 | a line break inside a written line makes ReadLine return two lines |
| PropertyStore.SavedLinesRead | Alkami.Utilities.Configuration/Configuration/Settings/Providers/SettingStore/PropertySettingStoreProvider.cs:51-80 | the lines of a storable dictionary, under a type name without line breaks, read back as they were written |
| PropertyStore.KeyLineBreakSplits | Alkami.Utilities.Configuration/Configuration/Settings/Providers/SettingStore/PropertySettingStoreProvider.cs:55-89 | a key holding LF does not survive: `a\nb=v` is read as the line `a` (skipped, no `=`) and the setting `b=v` |
| PropertyStore.Read | Alkami.Utilities.Configuration/Configuration/Settings/Providers/SettingStore/PropertySettingStoreProvider.cs:67-101 | a missing file is an empty dictionary; otherwise the settings of the lines ReadLine returns, with distinct keys |
| PropertyStore.ReadSaved | Alkami.Utilities.Configuration/Configuration/Settings/Providers/SettingStore/PropertySettingStoreProvider.cs:37-101 | storable settings saved under a namespace, with a type name without line breaks, are read back unchanged |
| PropertyStore.ReadOther | Alkami.Utilities.Configuration/Configuration/Settings/Providers/SettingStore/PropertySettingStoreProvider.cs:42-72 | saving under one namespace does not change what another reads (the model assumes that distinct namespaces name distinct files, see File I/O) |
| PropertyStore.SaveEmpty | Alkami.Utilities.Configuration/Configuration/Settings/Providers/SettingStore/PropertySettingStoreProvider.cs:46 | saving nothing clears an existing file down to its header, and creates no file |
| PropertyStore.PropertySettingStore.constructor | Alkami.Utilities.Configuration/Configuration/Settings/Providers/SettingStore/PropertySettingStoreProvider.cs:25-28 | the store starts with the files it is given |
| PropertyStore.PropertySettingStore.SaveSettings | Alkami.Utilities.Configuration/Configuration/Settings/Providers/SettingStore/PropertySettingStoreProvider.cs:37-59 | a null namespace or type is rejected and nothing changes; otherwise the files become the saved files |
| PropertyStore.PropertySettingStore.GetSettings | Alkami.Utilities.Configuration/Configuration/Settings/Providers/SettingStore/PropertySettingStoreProvider.cs:67-101 | a null namespace is rejected; otherwise the dictionary read from its file |
| InMemory.LoadUnsaved | Alkami.Utilities.Configuration/Configuration/Settings/Providers/InMemorySettingProvider.cs:24-34 | a namespace nothing was saved under loads a new object |
| InMemory.SaveKeepsOthers | Alkami.Utilities.Configuration/Configuration/Settings/Providers/InMemorySettingProvider.cs:48-49 | saving under one namespace adds that namespace and does not change what another loads |
| InMemory.SaveThenLoad | Alkami.Utilities.Configuration/Configuration/Settings/Providers/InMemorySettingProvider.cs:20-50 | an object saved and loaded again under the same namespace holds every leaf value it had |
| InMemory.InMemorySettingProvider.constructor | Alkami.Utilities.Configuration/Configuration/Settings/Providers/InMemorySettingProvider.cs:12 | the provider starts empty |
| InMemory.InMemorySettingProvider.GetSettings | Alkami.Utilities.Configuration/Configuration/Settings/Providers/InMemorySettingProvider.cs:20-35 | a null namespace is rejected; otherwise a new object, with the saved changes applied when there are some, and a failing application passed on |
| InMemory.InMemorySettingProvider.SaveSettings | Alkami.Utilities.Configuration/Configuration/Settings/Providers/InMemorySettingProvider.cs:43-50 | a null namespace or object is rejected; otherwise the object's changes replace the namespace's; a failing diff is passed on and nothing changes |
| FrameworkInMemory.LoadUnsaved | Alkami.Framework.Settings/InMemorySettingProvider.cs:24-34 | a namespace nothing was saved under loads a new object |
| FrameworkInMemory.SaveKeepsOthers | Alkami.Framework.Settings/InMemorySettingProvider.cs:50-51 | saving under one namespace adds that namespace and does not change what another loads |
| FrameworkInMemory.SaveThenLoad | Alkami.Framework.Settings/InMemorySettingProvider.cs:19-52 | an object saved and loaded again holds every described value it had |
| FrameworkInMemory.SavedObjectNeverLoads | Alkami.Framework.Settings/InMemorySettingProvider.cs:19-52 | an object with a class-typed property assigned after the base constructor cannot be loaded again once saved |
| FrameworkInMemory.InMemorySettingProvider.constructor | Alkami.Framework.Settings/InMemorySettingProvider.cs:11 | the provider starts empty |
| FrameworkInMemory.InMemorySettingProvider.GetSettings | Alkami.Framework.Settings/InMemorySettingProvider.cs:19-35 | a null namespace is rejected; otherwise a new object, with the saved changes applied when there are some, and a failing application passed on |
| FrameworkInMemory.InMemorySettingProvider.SaveSettings | Alkami.Framework.Settings/InMemorySettingProvider.cs:43-52 | a null namespace or object is rejected; otherwise the object's changes replace the namespace's; a failing diff is passed on and nothing changes |

## Left out

- Reflection: the declared properties, their attributes and types are an explicit schema in declaration order (`DeclaredProperties` order is taken as the declaration order). `IsPropertyCustomClass` (the type is not from mscorlib and declares properties) is a `Composite` with at least one property. The mscorlib test depends on the runtime, and the schema takes the .NET Framework answer. On .NET Core, `string` comes from System.Private.CoreLib, so it would count as a custom class, because it declares `Chars` and `Length`.
- Objects are values: a nested object is identified by its path, and object equality in the diff is equality of type names, not `Equals` on references. The Utilities model assumes that every nested settings object is non-null when the base constructor runs and is never replaced afterwards. In the code, a null nested object makes BuildSettingDescriptorsForType throw NullReferenceException (`instance.GetType()`, BaseSettings.cs:63), and a nested object set to null later makes the diff throw TargetException (`Property.GetValue(instance)`, BaseSettings.cs:148); neither exception is modelled.
- `BaseSettings(Dictionary)` (the Utilities constructor that calls SetProperties) is not a separate member: it is the constructor followed by `SetProperties`, which is how `InMemory.InMemorySettingProvider.GetSettings` composes them.
- Culture and Unicode: character classes, upper-casing and ordinal comparison are over ASCII-like `char`s; double formatting is not modelled, so the text of `Order` in ToString is a parameter.
- Descriptor.CompareTo: each string.Compare result is reduced to its sign before the OR, because .NET only promises the sign; the zero/non-zero outcome is unaffected.
- Values.Parse: the leniencies of Convert.ChangeType and Enum.Parse (surrounding whitespace, numeric or comma-separated enum strings, culture number formats) are not modelled; an Int32 is an optional sign and decimal digits.
- Integers are unbounded; the Int32 range is enforced only where a string is converted.
- The Framework diff adds `settingDescriptor.Name` as a key; a null name there is modelled as ArgumentNull("key"), although the defaulting step never leaves a built descriptor without a name.
- SettingDescriptorCollection: modelled as a sequence, so the copy constructor of the collection (SettingDescriptorAttribute.cs 207-210) keeps the given order by construction.
- SettingsRoundTrip.RoundTrip: proved only for attributes without their own default value, distinct sibling names, names without '.' whose segments do not repeat along a key, no null leaf, and no changed class-typed leaf; outside these the code does not restore the object (see the behaviour notes above).
- FrameworkSettingsFacts.RoundTrip: proved only for attributes without their own default value, distinct descriptor names, and no changed class-typed property.
- InMemory.SaveThenLoad: inherits the hypotheses of SettingsRoundTrip.RoundTrip.
- FrameworkInMemory.SaveThenLoad: inherits the hypotheses of FrameworkSettingsFacts.RoundTrip.
- PropertyStore.UnescapeEscape: round trip proved for values without '~' only, because the code does not round-trip the others (PropertyStore.TildeBreaksRoundTrip).
- File I/O: a property file is its text in a map from namespace to text; `GetNamespaceFilename`, `EnsurePathExists`, stream handling and encodings are not modelled. The model assumes that distinct namespaces name distinct files. In the code, the file is `Path.Combine(settingStorePath, ns) + ".settings"`, so two namespaces can share one file: "Foo" and "foo" on a case-insensitive file system, or a rooted namespace.
- PropertyStore.Saved: the line terminator WriteLine appends (Environment.NewLine) is fixed to CR LF, the Windows value; with LF the reading of break-free lines is the same, and only keys ending in CR would read differently.
- Dicts.SortByKey: the code sorts the changed keys with `OrderBy(c => c.Key)`, that is with the current culture's string comparer (BaseSettings.cs:131 of Alkami.Utilities.Configuration, BaseSettings.cs:125 of Alkami.Framework.Settings); the model sorts them in ordinal order instead. The entries are the same, but their order can differ (ordinally "Banana" precedes "apple"; in en-US "apple" comes first), which shows in the line order of a saved property file and in which settings SetProperties has already assigned when a later one fails.
- Dicts.SortByKeySorted: states ordinal key order, not the culture comparer's order, for the reason given for Dicts.SortByKey.
- Settings.BaseSettings.SetValue: models assigning a plain (leaf) property. Assigning a nested settings object (a composite path) changes nothing in the model, because a nested object is identified by its path; in the code it replaces every nested leaf at once, and a null one makes the next diff throw TargetException.
- InMemory.LoadUnsaved: the new object is the state the base constructor sees; assignments in the body of a derived constructor, which `new T()` runs afterwards, are not modelled.
- InMemory.InMemorySettingProvider.GetSettings: `new T()` is modelled as the base constructor only, so a derived constructor body's assignments are missing from the returned object.
- FrameworkInMemory.LoadUnsaved: as InMemory.LoadUnsaved; for the test class BankSettings (BankSettings.cs:22-25) the model's new object has a null EmbeddedClass where the code's holds an object.
- FrameworkInMemory.InMemorySettingProvider.GetSettings: as InMemory.InMemorySettingProvider.GetSettings, the derived constructor body is not run.
- The Git, Json and file-based providers, the provider interfaces and the `Validate` argument-validation library (its checks appear as ArgumentNull results) are not part of this model.
- Logging (`ILog`, `ILogger` scopes and messages) has no effect on the results and is left out.
- The saved dictionary of the in-memory providers is never null, so the `!= null` check in their GetSettings always holds and is not modelled as a branch.
