# GameSaver serialisation engine in Dafny

GameSaver saves a game's object graph to a line-oriented text file and loads it back.
This project models its serialisation engine:

- **The record tree.** A `GameSaveEntry` has a type tag, a load directive and a data list. Each child in the data list is a text leaf or a nested entry.
- **The encoder.** `addItem` builds the record for a value. Dicts become (key, value) tuple records. Other iterables (lists, tuples, sets, ranges, iterable host objects) become one record per element under their own class name, before any registered save function is tried. Callables become their name, entries are passed through, and strings are `unicode_escape`d. Bytes are `escape_encode`d. Registered special types go through their save function, and everything else falls back to `str()`.
- **The text codec.** `writeLine`, `readLine`, `writeEntry` and `readEntry` write and read the tag line, the directive line, the child count and the children. A nested entry follows the marker line `ENTRY`.
- **The decoder.** `reconstructObject` and its list, tuple and dict loops. The registry is searched first with the host's `isSubclass` callback, then the container tags are tried, then the scalar tags.
- **The application step.** `loadFromSaveData` assigns a field for a directive ending in `=` and calls the named method otherwise. `SaveableWrapper` is the stock user of this step.
- **The type registry.** `addSpecialType` and `destroy`.

Modules, one per file:

| file | module | models |
|---|---|---|
| `wrappers.dfy` | `Wrappers` | `Option` and `Result` |
| `dict.dfy` | `Dicts` | Python's insertion-ordered dict, as a sequence of items |
| `text.dfy` | `Text` | `rstrip`, ASCII `lower`, `str(int)`, `int(str)` over ASCII digits and the `unicode_escape` codec |
| `tree.dfy` | `Tree` | the record tree (`Item`, `Entry`) and `list.insert` |
| `values.dfy` | `Values` | the values the engine meets, and the runtime facts left to the host |
| `registry.dfy` | `Registry` | `SpecialTypeEntry`, the registry searches, and the `GameSaver` class state |
| `encoder.dfy` | `Encoder` | `addItem`, as a specification function and as the `GameSaveEntry` class |
| `codec.dfy` | `Codec` | the text format: the `LineFile` class and the read/write methods, proved against `Serialize` and `ParseEntry` |
| `decoder.dfy` | `Decoder` | `reconstructObject` and its loops, as specification functions |
| `roundtrip.dfy` | `RoundTrip` | decoding undoes encoding, and encoded records can be written |
| `loader.dfy` | `Loader` | the `SaveableObject` class: `loadFromSaveData`, the `reconstruct*` methods, `SaveableWrapper` |

The imperative parts of the source are methods proved against the specification functions:

- `addItem` appends to or inserts into a data list;
- the read/write loops step through a stream;
- the registry search in `reconstructObject` is a `while` loop, and the container rebuilds are loops;
- `loadFromSaveData` updates fields in a loop;
- `addSpecialType` and `destroy` update class state.

Each method's postcondition equates its result or new state with the specification function. The lemmas then prove what the source promises about that function.

The host enters as parameters, never as code: the `isSubclass` callback, `isinstance` over host classes, the bytes escape codec, `float()`, and the registered save and restore functions.

The encoder writes a `str` as its `unicode_escape` text (GameSaver.py:242), and the decoder returns a `str` line unchanged (GameSaver.py:117-118). So `"a\nb"` loads as the four characters `a\nb`, with a literal backslash; `RoundTrip.EscapeNotUndone` proves this. The full round trip (`RoundTrip.DecodeEncode`) holds only for strings whose escape is themselves: printable ASCII with no backslash.

## Model

| member | source | states |
|---|---|---|
| Dicts.Put | GameSaver.py:305 | `d[key] = val` keeps the length when the key is present and adds one item when it is new; the other items keep their key and value, the new key goes at the end, the key holds val, and keys stay unique |
| Dicts.GetPut | GameSaver.py:305 | after `d[key] = val`, looking up key gives val and every other key gives what it gave before |
| Dicts.GetAt | GameSaver.py:305 | in a dict with unique keys, looking up the key of item i gives item i's value |
| Dicts.PutFresh | GameSaver.py:305 | assigning a key not yet present appends (key, val) at the end |
| Text.RStrip | GameSaver.py:65 | `rstrip()` is a prefix of its input that does not end in whitespace, and it drops only whitespace |
| Text.RStripPadding | GameSaver.py:65 | `rstrip()` removes exactly the whitespace padding after a text that does not end in whitespace |
| Text.LowerIdempotent | GameSaver.py:101 | lower-casing twice is lower-casing once |
| Text.NatToString | GameSaver.py:348 | `str(n)` of a count is a non-empty run of decimal digits with no leading zero |
| Text.ParseIntOfIntToString | GameSaver.py:375 | `int(str(i)) == i` for every integer, so the count line reads back as the count |
| Text.ParseIntEmpty | GameSaver.py:375 | `int("")` raises |
| Text.UnicodeEscape | GameSaver.py:242 | the escape is at least as long as the string and holds only printable ASCII |
| Text.EscapedHasNoNewline | GameSaver.py:240-243 | an escaped string never holds a line break |
| Text.EscapeIsIdentityIff | GameSaver.py:240-243 | a string is its own escape exactly when every character is printable ASCII other than the backslash |
| Tree.InsertPosition | GameSaver.py:261 | `list.insert` counts a negative index from the end and clamps an index beyond either end |
| Tree.InsertAtAddsOne | GameSaver.py:261 | inserting adds one element at the clamped position; removing it gives back the list in order |
| Registry.Collapse | GameSaver.py:97-98 | a one-element data list is collapsed to its element, any other is kept; expanding the result gives the data list back |
| Registry.FirstMatch | GameSaver.py:78-88 | the first key, in registration order, that the predicate accepts; no earlier key is accepted, and Unmatched means none is |
| Registry.FindRestoreType | GameSaver.py:78-88 | the decoder's search fails exactly when keys exist but `isSubclass` is unset; a match is the first key `isSubclass(tag, key)` accepts |
| Registry.FindSaveType | GameSaver.py:248-255 | the encoder's search gives the first key the value is an instance of, or none when no key matches |
| Registry.ReRegisterKeepsPriority | GameSaver.py:297-305 | registering an existing key again leaves the decoder's choice unchanged for every tag |
| Registry.GameSaver.constructor | GameSaver.py:287-292 | the registry starts empty with no `isSubclass` |
| Registry.GameSaver.AddSpecialType | GameSaver.py:297-305 | the dictionary becomes `Put(old, key, entry)`; keys stay unique and `isSubclass` is kept |
| Registry.GameSaver.Destroy | GameSaver.py:430-438 | the dictionary is emptied and `isSubclass` reset to None |
| Encoder.Encode | GameSaver.py:217-257 | the record's directive is the given loadFn; its tag is the value's class name, or the inner tag for an entry; lists, tuples and other iterables get one child per element and dicts one per item; a GameSaveEntry value's children are exactly its own data list; a callable's one child is the leaf of its `__name__`; an unregistered scalar or host object's one child is its `str()` leaf; a registered one, a str and a bytes get exactly one child |
| Encoder.RegisteredRecord | GameSaver.py:247-255 | a value that reaches the registry search and is an instance of the first matching type gets one child: the nested record of that type's saved value, with an empty directive |
| Encoder.EncodeElems | GameSaver.py:231-233 | one child per element |
| Encoder.EncodePairs | GameSaver.py:224-226 | one child per dict item |
| Encoder.EncodeElemsAt | GameSaver.py:231-233 | child i is element i's record with the empty directive: order is kept |
| Encoder.EncodePairsAt | GameSaver.py:224-226 | child i is the (key, value) tuple record of item i, with the empty directive |
| Encoder.IterableAsList | GameSaver.py:231-233 | another iterable is written exactly as a list of its elements would be, under its own class name, one record per element in order, whatever the registry holds |
| Encoder.StrLeaf | GameSaver.py:240-243 | a str is one leaf of its escape, with no line break, equal to the string exactly when the string is plain printable ASCII |
| Encoder.FallbackLeaves | GameSaver.py:256-257 | an unregistered None, bool or int becomes the leaf "None", "True"/"False" or its decimal text |
| Encoder.Place | GameSaver.py:258-261 | the data list grows by one: at the end with no index, at the `list.insert` position otherwise, the other children in order |
| Encoder.GameSaveEntry.constructor | GameSaver.py:203-206 | a fresh entry is tagged "GameSaveEntry" with no directive and no data |
| Encoder.GameSaveEntry.AddItem | GameSaver.py:208-261 | only the data list changes, by the one record `Encode` gives for obj and loadFn, placed by `Place` |
| Encoder.NewRecord | GameSaver.py:217-257 | the fresh record built branch by branch equals `Encode(loadFn, obj)` |
| Encoder.AddPairs | GameSaver.py:224-226 | the dict loop leaves exactly `EncodePairs` in the new record's data list |
| Encoder.AddElems | GameSaver.py:231-233 | the iterable loop leaves exactly `EncodeElems` in the new record's data list |
| Encoder.AddSpecialOrText | GameSaver.py:247-257 | the registry loop adds the first matching type's saved record, or the `str()` leaf when no key matches |
| Codec.Line | GameSaver.py:322-323 | a line break is added to text that has none |
| Codec.NextLine | GameSaver.py:334-337 | `readLine` gives text with no line break and consumes at least one character of a non-empty file; an exhausted file gives "" |
| Codec.NextLineOfLine | GameSaver.py:322-337 | a line written by `writeLine` is read back by `readLine` and nothing after it is consumed |
| Codec.ParseEntry | GameSaver.py:370-381 | a read entry always has a directive (the directive line) and never consumes more than the text |
| Codec.ParseItems | GameSaver.py:376-380 | the loop reads exactly max(n, 0) children |
| Codec.ReadBack | GameSaver.py:372-374 | reading keeps the tag and the number of children, and the directive comes back as text, "None" for none |
| Codec.RoundTrip | GameSaver.py:340-381 | `readEntry` after `writeEntry` gives the entry back with its children in order and consumes exactly its lines, when no tag, directive or leaf holds a line break and no leaf is "ENTRY" |
| Codec.ItemsRoundTrip | GameSaver.py:376-380 | the children written by the loop are read back in order, and the rest of the file is left |
| Codec.ExhaustedPads | GameSaver.py:334-337 | with the file exhausted, every expected child reads as an empty leaf |
| Codec.TruncatedChildren | GameSaver.py:375-380 | a file cut off after the count line reads as an entry of that many empty leaves |
| Codec.BadCountLine | GameSaver.py:375 | a count line that `int()` rejects fails, naming the line |
| Codec.MissingCountLine | GameSaver.py:334-337 | a file that ends before the count line fails on the empty count |
| Codec.MarkerLeafMisread | GameSaver.py:378 | an entry whose only leaf is "ENTRY" does not survive: reading it back fails |
| Codec.MarkerAtEnd | GameSaver.py:378-379 | a marker line with nothing after it starts an entry whose count is missing |
| Codec.LineFile.Readline | GameSaver.py:334 | `readline()` consumes the next line with its line break, or the rest of the text |
| Codec.WriteLine | GameSaver.py:308-324 | the file grows by exactly `Line(line)` |
| Codec.ReadLine | GameSaver.py:327-337 | the line read and the text left are `NextLine` of the unread text |
| Codec.WriteEntry | GameSaver.py:340-354 | the file grows by exactly `Serialize(e)` |
| Codec.WriteDatum | GameSaver.py:349-354 | one turn of the loop appends the child's text, after the marker for a nested entry |
| Codec.ReadEntry | GameSaver.py:357-381 | the result and the read position are those of `ParseEntry` on the unread text |
| Codec.ReadItems | GameSaver.py:376-380 | the loop's children and read position are those of `ParseItems` |
| Codec.ReadDatum | GameSaver.py:377-380 | one turn of the loop reads a leaf or, after the marker, a nested entry, as `ParseDatum` does |
| Codec.ParseEntryHeader | GameSaver.py:371-375 | the three header lines decide the entry: a bad count fails, a good one reads that many children |
| Decoder.DecodeList | GameSaver.py:133-143 | a decoded list has one element per child |
| Decoder.DecodeTuple | GameSaver.py:145-156 | a decoded tuple has one element per child |
| Decoder.DecodeDict | GameSaver.py:158-169 | a decoded dict has unique keys |
| Decoder.DecodeElems | GameSaver.py:139-141 | the element loop gives one value per child |
| Decoder.DecodePairs | GameSaver.py:164-167 | the dict loop gives one pair per child, every key hashable |
| Decoder.AsPair | GameSaver.py:166-167 | `[0]` and `[1]` of a tuple or list are its first two elements, and fail when it has fewer |
| Decoder.DictFromPairs | GameSaver.py:162-169 | assigning the pairs in order gives a dict with unique keys |
| Decoder.DecodeScalar | GameSaver.py:97-130 | a str comes back as the line; an int comes back as `int()` of the line; bool, NoneType, None and GameSaveEntry never fail |
| Decoder.DecodeElemsAt | GameSaver.py:133-143 | the list loop succeeds exactly when every child is a record that decodes, and value i is child i decoded |
| Decoder.DictLastWins | GameSaver.py:158-169 | each key of the decoded dict holds the value paired with it last |
| Decoder.DictOfDistinct | GameSaver.py:158-169 | pairs with distinct keys give a dict with exactly those items in that order |
| Decoder.RegistryFirst | GameSaver.py:78-88 | the first registered key `isSubclass(tag, key)` accepts decides, whatever the tag, and its restore function gets the collapsed data |
| Decoder.MissingPredicateFails | GameSaver.py:80-81 | with a type registered and `isSubclass` unset, every tag fails |
| Decoder.BoolLine | GameSaver.py:99-106 | a bool line is lower-cased; "true" and "1" give True, every other text False |
| Decoder.BoolWords | GameSaver.py:99-106 | "True" and "False", as `str()` writes them, load as True and False |
| Decoder.NoneAnyPayload | GameSaver.py:107-108 | the tags NoneType and None give None whatever the data |
| Decoder.EntryRewrap | GameSaver.py:109-116 | a GameSaveEntry record is rewrapped with its data list unchanged |
| Decoder.StrLineUnchanged | GameSaver.py:117-118 | a str line is returned as it stands |
| Decoder.IntLine | GameSaver.py:121-122 | an int line gives `int()` of it, or fails naming the text |
| Decoder.FunctionTagsFail | GameSaver.py:125-128 | function and method records always fail |
| Decoder.UnknownTagFails | GameSaver.py:129-130 | an unregistered tag that is not built in fails; there is no default |
| RoundTrip.DecodeEncode | GameSaver.py:71-169 | decoding the read-back record of any portable value gives that value back |
| RoundTrip.ScalarRoundTrip | GameSaver.py:99-124 | None, bools, ints and floats come back through their `str()` leaf |
| RoundTrip.StrRoundTrip | GameSaver.py:117-118 | a plain printable-ASCII string comes back unchanged |
| RoundTrip.EscapeNotUndone | GameSaver.py:117-118 | any other string loads as its escape, which differs from it |
| RoundTrip.BytesRoundTrip | GameSaver.py:119-120 | bytes come back when the host's unescape undoes its escape |
| RoundTrip.EntryRoundTrip | GameSaver.py:109-116 | a GameSaveEntry value comes back with its data list |
| RoundTrip.IterableNotRestored | GameSaver.py:129-130 | another iterable's record does not load unless its class name is registered |
| RoundTrip.ObjectRoundTrip | GameSaver.py:78-88 | a registered object comes back through its restore function |
| RoundTrip.RegisteredObjectRoundTrip | GameSaver.py:247-255 | for a concrete registry with one host class, the encoder takes the registered branch and writes the saved value as the one child, and the instance comes back through the restore function; the round-trip conditions can be met with a registry in use |
| RoundTrip.ListRoundTrip | GameSaver.py:133-143 | a list of portable elements comes back as a list with the same elements in order |
| RoundTrip.TupleRoundTrip | GameSaver.py:145-156 | a tuple of portable elements comes back as a tuple with the same elements in order |
| RoundTrip.DictRoundTrip | GameSaver.py:158-169 | a dict with unique, hashable, portable keys and portable values comes back with the same items in order |
| RoundTrip.ElemsRoundTrip | GameSaver.py:133-143 | the element records decode to the elements, in order |
| RoundTrip.PairsRoundTrip | GameSaver.py:158-169 | the pair records decode to the dict's items, in order |
| RoundTrip.PortableWritable | GameSaver.py:217-257 | every record of a portable value can be written: no line break in any tag, directive or leaf, and no leaf "ENTRY" |
| Loader.FieldName | GameSaver.py:65-66 | a directive names a field exactly when it ends in "=" once right-stripped; the name is a prefix of the directive that does not end in whitespace |
| Loader.ApplyOne | GameSaver.py:62-69 | a child applies only if it is a record with a directive; an assigning directive leaves the decoded value in the named field; at most one call is logged |
| Loader.AssignDirective | GameSaver.py:65-66 | "x =", "x = ", "x=" and any whitespace around "=" assign the field x |
| Loader.MethodDirective | GameSaver.py:68-69 | any other directive calls the method it names, unstripped, with the value and refObj, and fails when there is no such method |
| Loader.ApplyUntouched | GameSaver.py:61-69 | a field no directive assigns keeps its presence and value, whether loading succeeds or stops |
| Loader.ApplyKeepsFields | GameSaver.py:61-69 | loading only assigns fields and calls methods: every field present before is present after |
| Loader.ApplyCallsAppended | GameSaver.py:67-69 | the call log only grows, each new call to a method of the object with refObj |
| Loader.ApplySequential | GameSaver.py:61-69 | the children apply in order: loading a + b is loading a, then b from where a left off unless a failed |
| Loader.ApplyErrorStays | GameSaver.py:61-69 | after the first failure the remaining children change nothing |
| Loader.ElemsErrorStays | GameSaver.py:139-141 | the first failing element decides the list's failure |
| Loader.PairsErrorStays | GameSaver.py:164-167 | the first failing item decides the dict's failure |
| Loader.NoKeyMatches | GameSaver.py:78-89 | when no registered key accepts the tag, the built-in tags are tried |
| Loader.SaveableObject.constructor | GameSaver.py:33-169 | a new instance has the methods SaveableObject defines as well as its subclass's own, its initial fields and no calls |
| Loader.SaveableWrapper.constructor | GameSaver.py:188-189 | a fresh SaveableWrapper's data field is None, and it has only the inherited methods |
| Loader.SaveableObject.GetSaveData | GameSaver.py:40-51 | the base record is tagged with the object's class name and has no directive and no children |
| Loader.SaveableWrapper.GetSaveData | GameSaver.py:191-196 | the wrapper's record is a GameSaveEntry whose one child is the record of the data field under the directive "data = " |
| Loader.SaveableWrapper.LoadFromSaveData | GameSaver.py:53-69 | the inherited loadFromSaveData on a wrapper gives exactly ApplyAll with the inherited methods, and the data field is still there afterwards |
| Loader.SaveableObject.LoadFromSaveData | GameSaver.py:53-69 | no data changes nothing; otherwise the new fields, call log and error are those of `ApplyAll` over the children |
| Loader.SaveableObject.ReconstructObject | GameSaver.py:71-131 | the registry loop and the dispatch give exactly `Decode(tag, items)` |
| Loader.SaveableObject.ReconstructList | GameSaver.py:133-143 | the result is exactly `DecodeList` |
| Loader.SaveableObject.ReconstructTuple | GameSaver.py:145-156 | the result is exactly `DecodeTuple` |
| Loader.SaveableObject.ReconstructElements | GameSaver.py:139-141 | the loop's result is exactly `DecodeElems` |
| Loader.SaveableObject.ReconstructDictionary | GameSaver.py:158-169 | the loop's dict is exactly `DecodeDict` |
| Loader.WrapperRoundTrip | GameSaver.py:171-196 | a wrapper's record for a portable value is written, read back, and loaded, whatever methods the object has, into the data field, which then holds the value, with nothing else changed |
| Loader.WrapperWritten | GameSaver.py:191-196 | the wrapper's record is read back exactly |
| Loader.DataApplied | GameSaver.py:61-69 | the read-back "data = " record assigns the value to the data field |

## Left out

- Floating point: `float()` and `str()` of a float are host functions. A float is carried as its text, and it round-trips when `float()` of its text gives that text back.
- The bytes escape codecs `codecs.escape_encode` and `escape_decode` are host functions.
- Text.Lower: lower-cases ASCII letters only. The "true"/"1" test does not depend on other characters.
- Text.ParseInt: accepts ASCII digits only, while Python's `int()` also accepts any other Unicode decimal digit (`int("\u0663") == 3`). A count line or a hand-written int leaf (GameSaver.py:121-122, GameSaver.py:375) in such digits reads as an error in the model. The encoder writes only ASCII digits, so the round trips are unaffected.
- `unicode_escape` is modelled for text only. The source holds str and bytes leaves as bytes until `writeLine` decodes them; the model keeps them as text.
- Python's key equality is replaced by structural equality: `1 == True == 1.0` is not modelled. Hashability is decided from the value's shape, so host objects count as hashable.
- Reflection is replaced by a closed value datatype and the host's `instanceOf` relation: `__class__.__name__`, `isinstance`, `callable`, `collections.Iterable` (assumed present), and `getattr`/`setattr`.
- Loader.SaveableObject.LoadFromSaveData: a method directive logs the call instead of running the method, whose effects are host code. A field assigned under a method's name does not shadow that method, as it would in Python.
- Loader.SaveableObject.GetSaveData: the unused `forLevelSave` parameter is dropped, here and in Loader.SaveableWrapper.GetSaveData.
- Save and restore functions are pure functions of their argument in the model. Ones that raise, or that read or change host state (a restore function that looks an object up among the game's live objects, say), are not modelled. The source passes refObj only to method directives, and the model passes it through to the call log.
- `AsPair` on a registered host object or another iterable reads as a failure. The source would call the object's own `__getitem__`, which lists, tuples and ranges have.
- Subclasses of dict, str and bytes: the source writes them through the dict, str or bytes branch under their own class name. The model's `VDict`, `VStr` and `VBytes` are the built-in classes only. Subclasses of list and tuple are `VIterable`.
- Whether another iterable is hashable (a frozenset or a range is, a set is not) is carried as a flag on the value, because it is a property of its class.
- Loader.SaveableMethods: lists the methods SaveableObject defines. A method directive may also name an attribute inherited from `object`, such as `__init__`, or a field holding a callable, which `getattr` would also find and call; the model reports NoSuchMethod for these.
- Aliasing and cycles: the model copies values. A value shared between two places in a graph is written twice, as in the source, but in-place mutation after saving is not tracked. `Value` is an inductive datatype, so it cannot hold a cycle: a list that contains itself, on which the source's `addItem` recurses until Python raises RecursionError, is not modelled.
- `saveGame` and `loadGame` (GameSaver.py:383-428): opening and closing files is I/O. The file is modelled as its text and a read position, and text-mode newline translation is left out.
- `GameSaveEntry.__repr__` is a debug printer, and `GameSaver.__init__` only raises.
- The encoder terminates only when every registered save function, applied to a value that reaches the registry search and is an instance of its type, returns a smaller value (`Registry.SaveShrinks`). The source assumes this without saying so: a save function that returns its own argument makes `addItem` recurse until RecursionError, and that path is not modelled.
- The round-trip lemmas assume that no registered type claims a built-in type name (`Registry.Unclaimed`).
