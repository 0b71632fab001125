# Bismut GDB pretty-printers, modelled in Dafny

The Bismut compiler emits C. Its runtime represents strings, lists and dictionaries as
macro-generated C structs: `__lang_rt_Str`, `__lang_rt_List_<T>` and
`__lang_rt_Dict_<K>_<V>`. The GDB script `gdb/bismut_pretty.py` teaches GDB to show these
structs, and pointers to them, by their contents. This project models that script and
proves properties of it. It has two parts.

- **Choosing a printer from a type name** (module `TypeNames`). GDB's type is reduced to a
  struct name: one pointer level is looked through, the tag is taken or else the printed
  type, and one leading `struct ` is removed. The name is then tested against three
  anchored patterns in a fixed order: `Str`, then `List_(\w+)`, then `Dict_(\w+?)_(\w+)`.
  Captured tags are translated by a twelve-entry table: `I64` becomes `i64`, `STR` becomes
  `str`, and any other tag stays as it is. `Classify` gives the choice as a value:
  `StrP`, `ListP(elem)`, `DictP(key, val)` or `NoPrinter`.
- **The printers** (module `Printers`, over the abstract layout of module `Runtime`).
  - `to_string` gives the summary: `List[T](n)`, `Dict[K, V](n)`, the decoded text of a
    `Str`, `None` for a null pointer, or `<str?>`, `<list?>` or `<dict?>` when a read fails.
  - `children` enumerates the contents. A list lists its first `min(len, 200)` elements.
    A dictionary lists only its full entries (state 1), as `[j].key` and `[j].value`
    pairs numbered consecutively.
  - The `Str` printer has one bit of state. `to_string` records a null pointer, and
    `display_hint` then drops the `string` hint.

The runtime layout is abstract. A value's type is either a pointer type or some other
type (`CType`). Every GDB read either gives a value or fails (`Mem`); a failure is what the
script's `except Exception` clauses catch. A struct is a map from field names to integers;
a missing field fails like an unreadable one. A `Str` also carries the bytes readable at
`data`, and a `Dict` the fields of the entries at `e`. As in GDB, `data[i]`,
`entry['key']` and `entry['value']` are located but not read, so they are `Child` values.

Points where the code decides something a quick reading might get wrong:

- Python's `$` also matches just before one final newline, and no pattern consumes a
  newline. So `__lang_rt_Str` followed by `"\n"` is also a `Str` (`Anchored`, `ClassifyStr`).
- The `Dict` key is lazy. It is the shortest non-empty prefix of the suffix that is
  followed by `_` and something non-empty. So `Dict_a__b` has key `a` and value `_b`
  (`DictSplitCharacterized`).
- A dictionary's enumeration ends at the first entry whose state cannot be read. Entries
  already yielded stay, because `children` is a generator whose `try` surrounds the loop
  (`ScanStates`).
- `len` of a list may be negative; `range(min(len, 200))` is then empty.
- The `Str` hint depends on call order. `display_hint` reads a flag that only `to_string`
  sets. Asked first, a printer over a null pointer answers `string`
  (`HintBeforeSummary`).

## Model

| member | source | states |
|---|---|---|
| `TypeNames.TagToName` | gdb/bismut_pretty.py:133-142 | each of the twelve primitive tags maps to its ASCII lower-case spelling; every other tag is returned unchanged |
| `TypeNames.TagTableKeys` | gdb/bismut_pretty.py:133-137 | the table's keys are exactly the twelve primitive tags |
| `TypeNames.TagTableIsLowerCase` | gdb/bismut_pretty.py:133-137 | each entry of the table maps a tag to its ASCII lower-case spelling |
| `TypeNames.TagToNameChangesOnlyPrimitives` | gdb/bismut_pretty.py:133-142 | the translation changes a tag if and only if the tag is one of the twelve |
| `TypeNames.TagToNameIdempotent` | gdb/bismut_pretty.py:133-142 | translating a translated name changes nothing: no Bismut name is itself a primitive tag |
| `TypeNames.StripStruct` | gdb/bismut_pretty.py:158-160 | a name starting with `struct ` equals `struct ` followed by the result (seven characters go); any other name is unchanged |
| `TypeNames.StripStructOnce` | gdb/bismut_pretty.py:158-160 | exactly one prefix is removed, even when the rest starts with `struct ` again |
| `TypeNames.Spelling` | gdb/bismut_pretty.py:157 | defines `t.tag or str(t)`: the tag of a type that has a non-empty one, otherwise its printed text (a pointer, or a typedef without a tag) |
| `TypeNames.BaseTypeName` | gdb/bismut_pretty.py:152-161 | for a pointer, the name comes from the pointed-to type; otherwise from the type's tag when it has one, and from its printed text when it has none; in every case after the prefix strip |
| `TypeNames.BaseTypeNameThroughPointer` | gdb/bismut_pretty.py:152-161 | a pointer to a non-pointer type has the same base name as that type, so a pointer to a runtime struct gets that struct's printer |
| `TypeNames.Anchored` | gdb/bismut_pretty.py:147-149 | a name ending in a newline must match in full without exactly that one newline; any other name must match in full as it is |
| `TypeNames.ListTag` | gdb/bismut_pretty.py:147 | the List pattern matches exactly when the name is the List prefix followed by a non-empty word, and its group is that word |
| `TypeNames.SplitFrom` | gdb/bismut_pretty.py:148 | the search returns the first underscore at or after the start index that has something after it, with no underscore in the key from the start index on; none means no such underscore exists |
| `TypeNames.DictSplit` | gdb/bismut_pretty.py:148 | a split of the Dict suffix exists only for a word, and its two groups are a non-empty key and a non-empty value joined by `_` that make up the whole suffix |
| `TypeNames.DictTags` | gdb/bismut_pretty.py:148 | when the Dict pattern matches, the name is the Dict prefix, the key group, `_` and the value group |
| `TypeNames.DictSplitCharacterized` | gdb/bismut_pretty.py:148 | the Dict groups are (k, v) if and only if the suffix is k + `_` + v, both are words, and k has no underscore after its first character |
| `TypeNames.Classify` | gdb/bismut_pretty.py:164-182 | the choice is Str exactly when the anchored name is `__lang_rt_Str`; a List choice needs the List prefix and a Dict choice the Dict prefix |
| `TypeNames.ClassifyStr` | gdb/bismut_pretty.py:168-169 | `__lang_rt_Str`, with or without one final newline, and no other name, gets the Str printer |
| `TypeNames.ClassifyFinalNewline` | gdb/bismut_pretty.py:147-149 | adding one final newline to a name that does not already end in one never changes the printer chosen |
| `TypeNames.ClassifyList` | gdb/bismut_pretty.py:171-174 | List round trip: the List prefix followed by a word tag t, with or without one final newline, gives `ListP(TagToName(t))` |
| `TypeNames.ListSource` | gdb/bismut_pretty.py:171-174 | every List choice comes from a name that is the List prefix followed by a word tag, with the element name being that tag translated |
| `TypeNames.ClassifyDict` | gdb/bismut_pretty.py:176-180 | Dict round trip: for word tags k and v, with no underscore in k after its first character, the name, with or without one final newline, gives `DictP(TagToName(k), TagToName(v))` |
| `TypeNames.DictSource` | gdb/bismut_pretty.py:176-180 | every Dict choice comes from a name that is the Dict prefix, a key, `_` and a value, with the shortest admissible key, both translated |
| `TypeNames.PatternsDisjoint` | gdb/bismut_pretty.py:164-182 | no name matches two of the three patterns, so each name gets at most one printer whatever the order of the tests |
| `Decimal.NatToString` | gdb/bismut_pretty.py:60 | `str(n)` of a natural number is a non-empty string of digits; its first digit is `0` only for the single digit `0`, so there is no leading zero |
| `Decimal.ValueOfNatToString` | gdb/bismut_pretty.py:60 | the digits read back as the number they render |
| `Decimal.NatToStringInjective` | gdb/bismut_pretty.py:76 | different numbers render differently |
| `Decimal.IntToString` | gdb/bismut_pretty.py:100-101 | `str(n)` of an integer starts with `-` exactly when n is negative, and is all digits otherwise; it is in Python's canonical form, with no leading zero and no `-0` |
| `Decimal.IntToStringRoundTrip` | gdb/bismut_pretty.py:100-101 | the rendering of any integer reads back as that integer |
| `Decimal.IntToStringInjective` | gdb/bismut_pretty.py:60 | different integers render differently |
| `Runtime.Field` | gdb/bismut_pretty.py:30 | defines `v[name]` in the abstract value layout: a field the struct lacks fails; otherwise it gives that field's read |
| `Runtime.Dereference` | gdb/bismut_pretty.py:24-29 | defines the pointer test: a pointer whose `int(v)` fails is unreadable, one reading 0 is null; otherwise the printer works on the pointed-to or direct struct |
| `Runtime.FieldOf` | gdb/bismut_pretty.py:54-59 | defines a field read after the pointer test: every field of a null or unreadable pointer fails; otherwise it is the struct's field |
| `Runtime.ReadBytes` | gdb/bismut_pretty.py:34 | defines the byte read: reading n bytes at `data` succeeds exactly when n is between 0 and the readable bytes, and gives the first n of them |
| `Runtime.SlotState` | gdb/bismut_pretty.py:118-119 | defines `int(entries[i]['st'])`: the `st` field of entry i; an entry beyond the readable ones fails |
| `Printers.IndexLabel` | gdb/bismut_pretty.py:76 | `'[{}]'.format(i)`; the function carries no contract of its own, and `IndexLabelDenotes` states its format |
| `Printers.IndexLabelDenotes` | gdb/bismut_pretty.py:76 | the label `[i]` is `[`, a canonical decimal rendering (no leading zero, no `-0`) reading back as i, and `]` |
| `Printers.KeyLabel` | gdb/bismut_pretty.py:121 | the key label `[i].key` is the index label of i followed by `.key` |
| `Printers.ValueLabel` | gdb/bismut_pretty.py:122 | the value label `[i].value` is the index label of i followed by `.value` |
| `Printers.ListSummary` | gdb/bismut_pretty.py:60 | `List[T](n)` is `List[`, the element name, `](`, a canonical decimal rendering (no leading zero, no `-0`) reading back as n, and `)` |
| `Printers.DictSummary` | gdb/bismut_pretty.py:100-101 | `Dict[K, V](n)` is `Dict[`, the key name, `, `, the value name, `](`, a canonical decimal rendering (no leading zero, no `-0`) reading back as n, and `)` |
| `Printers.LabelsDistinct` | gdb/bismut_pretty.py:121-122 | labels `[i]`, `[i].key` and `[i].value` are each injective in i, and no key label equals a value label |
| `Printers.ListSummaryFaithful` | gdb/bismut_pretty.py:60 | `List[T](n)` determines n and is never `None` or `<list?>` |
| `Printers.DictSummaryFaithful` | gdb/bismut_pretty.py:100-101 | `Dict[K, V](n)` determines n and is never `None` or `<dict?>` |
| `Printers.StrText` | gdb/bismut_pretty.py:22-37 | `None` for a null pointer; `<str?>` when the pointer, `len`, `data` or the byte read fails; `''` for a NULL `data`; otherwise the decoding of the first `len` bytes |
| `Printers.StrPrinter.constructor` | gdb/bismut_pretty.py:18-20 | a new printer holds the value and has not seen a null pointer |
| `Printers.StrPrinter.ToString` | gdb/bismut_pretty.py:22-37 | returns StrText of the value and sets the null flag exactly when it was set or the value is a null pointer; nothing else changes |
| `Printers.StrPrinter.DisplayHint` | gdb/bismut_pretty.py:39-42 | no hint exactly when the null flag is set; otherwise `string` |
| `Printers.ShowStr` | gdb/bismut_pretty.py:22-42 | for a fresh printer, summary then hint: the hint is absent exactly for a null pointer, whose summary is `None`; otherwise it is `string` |
| `Printers.HintBeforeSummary` | gdb/bismut_pretty.py:39-42 | for a fresh printer, hint then summary: the hint is `string` even for a null pointer |
| `Printers.ListChildCount` | gdb/bismut_pretty.py:75 | the shown count is at most 200 and at most len, is 0 for a non-positive len, and otherwise equals len or 200 |
| `Printers.ListData` | gdb/bismut_pretty.py:66-74 | defines the early returns: a list is enumerated exactly when the pointer is non-null, `len` and `data` read, and `data` is not NULL |
| `Printers.ListPrinter.constructor` | gdb/bismut_pretty.py:48-50 | the printer holds the value and the translated element name |
| `Printers.ListPrinter.ToString` | gdb/bismut_pretty.py:52-62 | `None` for a null pointer, `List[T](len)` when `len` reads (whatever `data` holds), `<list?>` otherwise |
| `Printers.ListPrinter.Children` | gdb/bismut_pretty.py:64-78 | nothing when the list cannot be enumerated; otherwise exactly `ListChildCount(len)` children, child i labelled `[i]` and located at `data[i]` |
| `Printers.ListPrinter.DisplayHint` | gdb/bismut_pretty.py:80-81 | the fixed hint `array` |
| `Printers.ScanStates` | gdb/bismut_pretty.py:117-125 | the states read under the `try` number at most `cap` less the start index (none when `cap` is not above it) |
| `Printers.ScanStatesExact` | gdb/bismut_pretty.py:117-125 | the states read are the longest run of readable entry states from slot 0, at most `cap` of them; when fewer than `cap`, the next state cannot be read |
| `Printers.FullSlots` | gdb/bismut_pretty.py:119-123 | the full slots of a scan are no more than the states scanned |
| `Printers.FullSlotsSound` | gdb/bismut_pretty.py:119-123 | every slot listed as full has state 1, and the listed slots are in strictly increasing order |
| `Printers.FullSlotsComplete` | gdb/bismut_pretty.py:119-123 | every scanned slot with state 1 is listed, so empty and deleted slots neither appear nor shift the others |
| `Printers.FullSlotsCount` | gdb/bismut_pretty.py:119-123 | the number of full slots equals the number of states equal to 1 |
| `Printers.PairChildren` | gdb/bismut_pretty.py:119-123 | the full slots give exactly two children each |
| `Printers.PairChildrenAt` | gdb/bismut_pretty.py:116-123 | the j-th full slot gives child 2j `[j].key` and child 2j + 1 `[j].value`, both at that slot's own index; there are exactly two children per full slot |
| `Printers.FullEntryChildren` | gdb/bismut_pretty.py:116-123 | the loop with its counter `idx` yields exactly the pair children of the full slots among those scanned |
| `Printers.DictData` | gdb/bismut_pretty.py:107-115 | defines the early returns: a dictionary is enumerated exactly when the pointer is non-null, `cap` and `e` read, and `e` is not NULL |
| `Printers.DictPrinter.constructor` | gdb/bismut_pretty.py:87-90 | the printer holds the value and the two translated names |
| `Printers.DictPrinter.ToString` | gdb/bismut_pretty.py:92-103 | `None` for a null pointer, `Dict[K, V](len)` (len, not cap) when `len` reads, `<dict?>` otherwise |
| `Printers.DictPrinter.Children` | gdb/bismut_pretty.py:105-125 | nothing when the dictionary cannot be enumerated; otherwise the pair children of the full slots among the scanned ones, at the address `e` |
| `Printers.DictPrinter.DisplayHint` | gdb/bismut_pretty.py:127-128 | the fixed hint `map` |
| `Printers.LookupPrinter` | gdb/bismut_pretty.py:164-182 | a new printer of the kind Classify gives for the base type name, holding the value and the translated names; none when no pattern matches |

## Left out

- `register_printers` and the call that registers it (gdb/bismut_pretty.py:187-194) are
  not modelled. They only append the lookup function to GDB's global list.
- The GDB API is replaced by the `Runtime` layout. This covers type codes, `int()` of a
  value, `dereference`, field access, `target()`, `t.tag` and `str(t)`. A typedef is an
  "other" type with its printed name.
- Decoding UTF-8 with `'replace'` is a parameter (`decode`) of the Str printer. The model
  does not look into it, so no property depends on the decoded text.
- `Runtime.ReadBytes`: GDB's handling of a negative length (read up to a NUL byte) is not
  modelled. A negative `len` counts as a failed read, giving `<str?>`.
- `TypeNames.IsWord`: by choice of scope, `\w` is only ASCII letters, digits and `_`.
  Python's `\w` also accepts other Unicode letters and digits. C11 universal character
  names and the UTF-8 identifiers of current GCC and Clang can put such letters in a struct
  tag. On such a name the model and the script differ: `__lang_rt_List_Café` gets a List
  printer from the script but `NoPrinter` from the model.
- `children` is modelled as the finite sequence its generator yields, not as a lazy
  iterator. Child values are located but not read, as in GDB.
- GDB's own order of calling `display_hint` and `to_string` is outside the script. Both
  orders are stated (`ShowStr`, `HintBeforeSummary`).
