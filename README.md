# svxlinkconf in Dafny

A model of the typed-section layer of `svxlinkconf.py`, the helper that edits
svxlink.conf, the INI configuration of the SvxLink amateur-radio linking
software.

- **Typed section record** (`SvxlinkTypeContainer`). It is an ordered dictionary
  from option name to value, guarded by an allow-list.
  - Every write upper-cases the name. A name whose upper-case form is not in the
    allow-list is refused before the dictionary is touched.
  - Overwriting keeps the entry's position; a new name is appended.
  - Lookups and `has_option` are case-insensitive.
  - `items()` lists the entries in insertion order and skips names starting with `_`.
  - Created without data, the record holds only `TYPE` = its type name. Created
    from data, it applies the checked write to each pair in order.
- **Section types.** `SvxlinkTypeNet` (allow-list TYPE, HOST, TCP_PORT, AUTH_KEY,
  CODEC; type name `Net`) and `SvxlinkTypeMulti` (allow-list TRANSMITTERS; type
  name `Multi`). For Net, also the check `is_online` makes before any network
  action: HOST and TCP_PORT must both be set.
- **Configuration document** (`SvxlinkConf`). It is taken as already parsed: a
  sequence of sections, each a name and a sequence of (option, value) pairs.
  - `get_remote_nodes` keeps the sections whose option spelled exactly `TYPE` has
    exactly the value `Net`. It builds a Net record from each one's pairs, and
    fails if one of them holds an option outside the Net allow-list.
  - `add_section` refuses a section name already in the document. Otherwise it
    appends a section and copies the record's `items()` into it.

Layout:

- `results.dfy`: `Option`, `Result`, `Outcome`, standing in for `None` and for
  raised exceptions.
- `ascii.dfy`: the case normalisation.
- `ordered_dict.dfy`: the `OrderedDict` operations the container uses.
- `svxlink_type.dfy`: the `Record` value, its lemmas, and the `TypeContainer`
  class. `TypeContainer`'s methods update its `entries` in place; its `Model()`
  reads them back as a `Record`.
- `svxlink_conf.dfy`: the document, `get_remote_nodes` as a pure filter and map,
  and the `Conf` class with `add_section`.

Two points where the source's text and its evident intent differ:

- `SvxlinkTypeMulti.__init__` (svxlinkconf.py:186) calls `super` on the
  undefined name `SvxlinkMulti`. As written, constructing a Multi section always
  raises NameError. The model builds the intended variant: the allow-list and
  type name of lines 186-188 (`NewMulti`, `MultiRecord`).
- The refusal at svxlinkconf.py:85-86 passes two arguments to `%` without a
  tuple, so Python raises TypeError instead of the ValueError meant. Either way
  the write fails before the update, and the model reports
  `InvalidOption(option, section)`.

## Model

| member | source | states |
|---|---|---|
| `Ascii.UpperIsUpper` | svxlinkconf.py:84 | upper-casing keeps the length, leaves no lower-case ASCII letter and changes no other character |
| `Ascii.UpperOfUpper` | svxlinkconf.py:124-126 | a name already in upper case is its own upper-case form, so a stored key looks itself up |
| `OrderedDict.Lookup` | svxlinkconf.py:94-95 | `get` finds a value exactly when the key is present, and that value is the one at the key's first position; otherwise None |
| `OrderedDict.LookupMember` | svxlinkconf.py:94-95 | a found value is stored under the key; with distinct keys every stored pair is what its key looks up |
| `OrderedDict.Update` | svxlinkconf.py:88 | after `update({k: v})` the pair `(k, v)` is present, the length grows by one exactly when `k` was new, and every entry under another key stays at its position |
| `OrderedDict.UpdateNew` | svxlinkconf.py:88 | updating with a key not yet present appends `(key, value)` at the end and moves nothing |
| `OrderedDict.UpdateExisting` | svxlinkconf.py:88 | updating a present key replaces its value at its own position; nothing else changes |
| `OrderedDict.UpdateLookup` | svxlinkconf.py:88 | after an update the key reads the new value and every other key reads what it read before |
| `OrderedDict.UpdateKeys` | svxlinkconf.py:88 | the keys after an update are the old keys plus the updated one, and stay free of duplicates |
| `OrderedDict.UpdatePrefix` | svxlinkconf.py:248-250 | with distinct keys, copying entries one by one into an empty dictionary rebuilds them in order |
| `OrderedDict.DistinctLookup` | svxlinkconf.py:124-126 | with distinct keys, looking up an entry's own key gives that entry's value |
| `SvxlinkType.Visible` | svxlinkconf.py:121-128 | a pair is listed by `items()` exactly when it is stored and its key does not start with `_` |
| `SvxlinkType.VisibleAll` | svxlinkconf.py:123-126 | when no key starts with `_`, `items()` lists every entry in insertion order |
| `SvxlinkType.VisibleDistinct` | svxlinkconf.py:123-128 | the names `items()` lists are distinct when the stored keys are |
| `SvxlinkType.AllowListsUpper` | svxlinkconf.py:145-147 | every name in the Net and Multi allow-lists is upper case and is its own upper-case form |
| `SvxlinkType.Record.Get` | svxlinkconf.py:94-95 | `self[key]` finds a value exactly when `has_option(key)`; the value is stored under the upper-cased key, and with distinct keys it is the only one stored there |
| `SvxlinkType.Record.HasOption` | svxlinkconf.py:105-110 | `has_option(key)` holds exactly when some entry is stored under the upper-cased key |
| `SvxlinkType.Record.Set` | svxlinkconf.py:79-98 | `self[key] = val` (lines 97-98, through the check at 79-88): a write succeeds exactly when the upper-cased name is allowed; a refusal names the option and the section; a success keeps type, section and allow-list and stores the value under the upper-cased name |
| `SvxlinkType.Record.Items` | svxlinkconf.py:112-128 | a pair is listed exactly when it is stored and its name does not start with `_`; with distinct keys the listed names are distinct |
| `SvxlinkType.Seeded` | svxlinkconf.py:71-72 | a record created without data keeps its attributes, holds one well-formed entry, reads TYPE as its type name and lists just `("TYPE", type_name)` |
| `SvxlinkType.Load` | svxlinkconf.py:73-77 | applying the checked write to each pair keeps type, section and allow-list on success; a failure is an invalid-option error for this section naming a pair of the data whose upper-cased name is not allowed |
| `SvxlinkType.Construct` | svxlinkconf.py:63-77 | construction keeps its attributes and yields distinct upper-case keys; without data it succeeds with TYPE set to the type name; from data it stores only allowed names; it fails only from data, with an invalid-option error for this section |
| `SvxlinkType.NetRecord` | svxlinkconf.py:135-147 | a Net record has type Net, the five-name allow-list, distinct upper-case keys that are all allowed, and TYPE = Net when created without data |
| `SvxlinkType.MultiRecord` | svxlinkconf.py:176-188 | a Multi record has type Multi and allow-list TRANSMITTERS; created without data it holds TYPE, which its allow-list does not contain |
| `SvxlinkType.SetGetRoundTrip` | svxlinkconf.py:84-110 | a write under an allowed name succeeds; afterwards every spelling of the name with the same upper-case form gets the value and `has_option` is true; other names read as before |
| `SvxlinkType.SetRejects` | svxlinkconf.py:84-86 | a write whose upper-cased name is not allowed fails, naming the option and the section |
| `SvxlinkType.SetOrder` | svxlinkconf.py:88 | a write overwrites an existing name at its position or appends a new one; type name, section name and allow-list are unchanged |
| `SvxlinkType.SetAppends` | svxlinkconf.py:84-88 | writing an allowed, upper-case name not stored yet appends exactly that pair |
| `SvxlinkType.SetPreserves` | svxlinkconf.py:79-88 | a successful write keeps the stored keys distinct and upper case, and allowed if they were |
| `SvxlinkType.ConstructWithoutData` | svxlinkconf.py:71-72 | created without data, the dictionary is exactly `[("TYPE", type_name)]`, and `items()` lists just that |
| `SvxlinkType.SeedAgainstAllowList` | svxlinkconf.py:144-147 | a fresh Net section stores only allowed keys; a fresh Multi section stores TYPE although TYPE is not in its allow-list (lines 186-187) |
| `SvxlinkType.LoadSucceedsIff` | svxlinkconf.py:73-77 | construction from data succeeds exactly when every pair's upper-cased name is allowed; otherwise the error names the first refused pair |
| `SvxlinkType.LoadPreserves` | svxlinkconf.py:73-77 | construction from data keeps type, section and allow-list, and keeps keys distinct, upper case and allowed |
| `SvxlinkType.LoadGet` | svxlinkconf.py:73-77 | after construction from data each name reads the value of the last pair that spelled it in any case; later duplicates overwrite earlier ones |
| `SvxlinkType.ConstructFromData` | svxlinkconf.py:63-77 | a record built from data has only allowed, distinct, upper-case keys, and `get`/`has_option` agree with the last pair for each name |
| `SvxlinkType.VariantItems` | svxlinkconf.py:121-128 | for the Net and Multi types nothing stored is internal, so `items()` equals the stored entries |
| `SvxlinkType.TypeContainer.constructor` | svxlinkconf.py:63-69 | sets type name, section name and allow-list, with an empty dictionary |
| `SvxlinkType.TypeContainer.Create` | svxlinkconf.py:63-77 | construction seeds TYPE when no data is given, else applies the checked write to each pair in order; it succeeds exactly when the specification `Construct` does, with the same record or the same error |
| `SvxlinkType.TypeContainer.CheckAndUpdate` | svxlinkconf.py:79-88 | passes exactly when the upper-cased name is allowed and then stores the value under it; on failure the dictionary is unchanged and the error names option and section |
| `SvxlinkType.TypeContainer.SetItem` | svxlinkconf.py:97-98 | `self[key] = val` changes the state exactly as `Record.Set` says and leaves it unchanged on failure |
| `SvxlinkType.TypeContainer.Items` | svxlinkconf.py:112-128 | walking the dictionary and pairing each non-internal key with `self[key]` yields the specification `Items()`, with distinct names |
| `SvxlinkType.TypeContainer.IsOnline` | svxlinkconf.py:149-168 | fails exactly when TCP_PORT or HOST is missing, before the connect attempt is consulted; otherwise returns the connect outcome for (HOST, TCP_PORT) |
| `SvxlinkType.NewNet` | svxlinkconf.py:135-147 | a Net container is the generic construction with type name Net and its five-name allow-list |
| `SvxlinkType.NewMulti` | svxlinkconf.py:177-188 | a Multi container is the generic construction with type name Multi and allow-list TRANSMITTERS |
| `SvxlinkConf.IsNetSection` | svxlinkconf.py:232-233 | a selected section stores the pair `("TYPE", "Net")`; with distinct option names, a section is selected exactly when it stores that pair |
| `SvxlinkConf.NetSections` | svxlinkconf.py:227-233 | a section is kept exactly when it is in the document and its option TYPE is exactly Net |
| `SvxlinkConf.NetSectionsAppend` | svxlinkconf.py:232-233 | the filter goes section by section, in document order |
| `SvxlinkConf.BuildNodes` | svxlinkconf.py:235 | the map succeeds exactly when every selected section builds a Net record, and then gives one record per section, in order |
| `SvxlinkConf.BuildNodesAppend` | svxlinkconf.py:235 | the map goes section by section; the first failing section makes the whole call fail |
| `SvxlinkConf.GetRemoteNodes` | svxlinkconf.py:216-235 | on success there is one record per Net section, in order, named like its section, of type Net with the Net allow-list; a failure is an invalid-option error naming one of the Net sections |
| `SvxlinkConf.RemoteNodesSpec` | svxlinkconf.py:216-235 | `get_remote_nodes` succeeds exactly when every option of every Net section is allowed for Net; then the i-th record is the i-th Net section, with its name and each option's last value |
| `SvxlinkConf.RemoteNodesSelect` | svxlinkconf.py:229-233 | with unique section names, a section yields a record exactly when it is a Net section; sections without TYPE or with another TYPE are excluded |
| `SvxlinkConf.LoadVerbatim` | svxlinkconf.py:73-77 | pairs with distinct, upper-case, allowed names are stored exactly as given, in order |
| `SvxlinkConf.NetRecordOfItems` | svxlinkconf.py:235 | a well-formed Net record is rebuilt exactly from its own `items()` |
| `SvxlinkConf.SectionOfNetRecord` | svxlinkconf.py:237-250 | the section written for a Net record whose TYPE is Net is itself selected, and mapping it gives back the record |
| `SvxlinkConf.AddThenGetRemoteNodes` | svxlinkconf.py:237-250 | adding a Net record whose TYPE is Net, then listing remote nodes, gives the previous list followed by that record |
| `SvxlinkConf.ScenarioSelection` | svxlinkconf.py:229-233 | in the document GLOBAL / NodeA (TYPE=Net) / Repeater1 (TYPE=Multi) only NodeA is selected |
| `SvxlinkConf.ScenarioNodeA` | svxlinkconf.py:235 | NodeA's pairs build a Net record holding them as given |
| `SvxlinkConf.ScenarioRemoteNodes` | svxlinkconf.py:216-235 | on that document `get_remote_nodes` returns exactly the NodeA record holding NodeA's pairs as given |
| `SvxlinkConf.ThreeSectionScenario` | svxlinkconf.py:216-235 | on that document `get_remote_nodes` returns one record, NodeA, with HOST 1.2.3.4 and TCP_PORT 5200 |
| `SvxlinkConf.Conf.constructor` | svxlinkconf.py:210-213 | the document is the parsed sequence of sections, with unique section names and unique option names within each section |
| `SvxlinkConf.SetIn` | svxlinkconf.py:250 | the store's `set` keeps the section names and leaves every section with another name unchanged |
| `SvxlinkConf.SetInAppended` | svxlinkconf.py:246-250 | setting an option of a section appended under a fresh name updates that section alone |
| `SvxlinkConf.Conf.SetOption` | svxlinkconf.py:250 | the store's `set` updates the option in the named section only, keeps option names unique, and fails with the document unchanged when the section is missing |
| `SvxlinkConf.Conf.AddSection` | svxlinkconf.py:237-250 | refuses a section name already present and leaves the document unchanged; otherwise appends one section with that name holding exactly the record's `items()`; earlier sections are unchanged |

## Left out

- The network body of `is_online` (svxlinkconf.py:158-173): the socket, the 3-second default timeout and the swallowed exceptions are network I/O. `IsOnline` takes the outcome of the connect attempt as a function parameter.
- Reading and parsing the file (`SvxlinkConf.__init__`, svxlinkconf.py:210-213) and `write` (svxlinkconf.py:252-264) are file I/O through the iniparse library, which is not part of this model. `Conf` starts from an already-parsed sequence of sections.
- The store's own behaviour beyond a duplicate-name refusal in `add_section` and a missing-section refusal in `set` is not modelled. This covers the parser's lower-casing of option names and its DEFAULT section. Option names are compared exactly as stored.
- Conf.Valid: option names within a section are unique as stored, since the store is a mapping per section; names that differ only in case count as different, because the parser's case folding is not modelled.
- `get_remote_nodes` is modelled as a function over the section sequence that returns record values, not as a method that allocates `SvxlinkTypeNet` objects.
- `get_section_name` (svxlinkconf.py:100-103) is the constant field `sectionName` of `TypeContainer` and `Record`, with no member of its own.
- The `print item` in `add_section` (svxlinkconf.py:249) is console output.
- `__str__` (svxlinkconf.py:91-92) is diagnostic formatting.
- `foo` and the `__main__` block (svxlinkconf.py:267-283) are demonstration code working on a real file.
- `str.upper` is modelled on ASCII letters only; Unicode case mapping is not.
- Values are strings. The integer port that `foo` stores is not modelled.
- The partial-copy weakness of `add_section` does not arise in the model: copying into the fresh section cannot fail partway.
