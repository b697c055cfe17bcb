# uclcmd in Dafny

uclcmd is a command-line tool that reads a UCL (or JSON) document into a libucl
object tree and then gets, sets, merges or removes nodes of that tree. It then
prints the result as text, UCL, JSON, compact JSON, YAML or msgpack.

This project models the core of the tool:

- the node addressing shared by all verbs: `get_object` and `get_parent` split a
  dotted path at its last separator, and `replace_sep`, `expand_subkeys` and
  `type_as_string` are the other helpers (module `Common`);
- the `get` engine: a request `node|cmd|cmd...` selects a node, then runs a pipeline
  of the commands `length`, `type`, `keys`, `values`, `iterate`, `recurse` and
  `each`, and of path lookups. Each handler reports the recursion depth it
  reached, and `get_mode` drops that many commands (module `Get`, with
  properties in `GetProps`, and what each command prints, record by record,
  in `GetText`);
- text and structured output, `output_key` and `output_chunk` (module `Output`);
- the `set`, `merge` and `remove` verbs on the tree (modules `SetCmd`, `Merge`,
  `Remove`);
- the older single-file tool `uclcmd.c`: its own get engine, `output_key`,
  `replace_sep` and the set, merge and remove branches of its `main` (module
  `Legacy`).

Supporting modules:

- `Tree` is the libucl object tree. An object is a sequence of entries. Each
  entry has a key, a head value and the rest of its implicit array, so two values
  under one key form a chain. `Tree` also holds the path lookup
  `ucl_lookup_path_char` and `ucl_iterate_object`.
- `Library` holds the libucl operations the verbs call (insert, replace and
  delete a key; append to, merge, replace in and delete from an array). It also
  holds the `Document` class, whose `root` field the verbs update.
- `Libc` holds the C library functions whose edge cases show up in the output:
  `strsep`, `strrchr`, `strtoul` and `strtoimax` with base selection, and
  `printf("%s")` of a NULL key.

Some notes on how the model is built:

- Identity of a node is its location: a sequence of steps (array index or entry
  number) from the root. So "the child is its parent", which `get_object`
  signals with a pointer comparison, is location equality.
- Printed output is a sequence of records, one per printf group.
- `output_key` and `output_chunk` rewrite their caller's nodepath buffer in place.
  In the model they hand the rewritten nodepath back, and every caller carries it
  on.
- Loops are `method`s with `while` loops. Each is proved equal to a recursive
  specification function, and the properties are lemmas about those functions.

Three behaviours of the code are easy to misread; the model follows the code:

- `iterate` walks the node's own implicit-array chain
  (`ucl_iterate_object(obj, &it, false)`), not the node's children.
- `recurse` hands a value under a top-level array the counter after it was
  incremented (`uclcmd_get.c:526-527`).
- `output_chunk` rewrites the caller's nodepath buffer on every call, so a
  run of chunks sees it rewritten once more each time. In shell-variable
  mode with '.' as the output separator the buffer drifts: the first chunk
  shows "a.b" and the later ones "a_b" (GetText.RewrittenDrifts). Otherwise
  it settles after the first call (GetText.RewrittenSettles).

## Model

| member | source | states |
|---|---|---|
| Libc.IndexOf | uclcmd_get.c:157 | the delimiter strsep stops at: the first occurrence of the character, none exactly when it does not occur |
| Libc.LastIndexOf | uclcmd_common.c:72 | strrchr: the position of the last occurrence, no occurrence after it, none exactly when absent |
| Libc.SplitOn | uclcmd_get.c:157-158 | repeated strsep always hands out at least one token |
| Libc.SplitOnTokens | uclcmd_get.c:157-158 | no token strsep hands out holds the delimiter |
| Libc.SplitOnJoin | uclcmd_get.c:157-158 | gluing the strsep tokens back with the delimiter gives the original request |
| Libc.SplitOnHead | uclcmd_get.c:157 | the first token is a prefix of the request holding no delimiter; when the delimiter occurs, it stands right after that prefix; without it the request is the only token |
| Libc.SplitOnCons | uclcmd_get.c:157 | a non-delimiter character in front joins the first token |
| Libc.SplitOnSingle | uclcmd_get.c:157-158 | a request without '\|' is a single token, so no command follows |
| Libc.PrintfStr | uclcmd_get.c:376 | printf("%s") of a NULL key prints "(null)" and any other key as it is |
| Libc.NatToString | uclcmd_get.c:410 | the decimal text printf's %i gives an index: digits only, none leading with 0 unless it is "0" |
| Libc.BaseAndDigits | uclcmd_set.c:300-301 | the base strtoul reads in (16 after "0x", 8 after a leading 0, 10 otherwise for base 0) is always between 2 and 36 |
| Libc.Strtoul | uclcmd_common.c:93 | strtoul(s, NULL, base) never exceeds ULONG_MAX |
| Libc.Strtoimax | uclcmd_set.c:218 | strtoimax(s, NULL, base): the value clamped to the intmax_t range |
| Libc.StrtoulNonNumeric | uclcmd_common.c:93 | text not starting with a digit, sign or space reads as 0 |
| Libc.StrtoulNatToString | uclcmd_common.c:93 | strtoul base 10 reads back the index printf wrote: the round trip the array labels rely on |
| Libc.StrtoulOctalPrefix | uclcmd_set.c:300-301 | with base 0, "010" reads as 8 where base 10 reads 10 |
| Tree.ChainOf | uclcmd_get.c:446 | ucl_iterate_object(h, false): the node first, then the rest of its implicit array |
| Tree.Children | uclcmd_get.c:372 | ucl_iterate_object(h, true): an object's entry heads with their keys and chains, an array's elements, otherwise the node's own chain |
| Tree.OptChildren | uclcmd_get.c:371-372 | a NULL node has no children |
| Tree.FindKey | uclcmd_common.c:95-96 | ucl_object_find_key: the first entry holding the key, none exactly when no entry does |
| Tree.KeyAt | uclcmd_remove.c:177 | ucl_object_key of the root is NULL |
| Tree.LookupLoc | uclcmd_common.c:85-86 | ucl_lookup_path_char: a found location is valid and at least one step below the top; a path without non-empty segments finds nothing |
| Tree.LookupPath | uclcmd_get.c:185 | nothing is found below NULL; below a node, a handle exactly when a location is found |
| Tree.LookupSkipsEmptySegments | uclcmd_get.c:643 | a leading separator does not change what a path finds, and a lone separator has no segments |
| Tree.KeyLookup | uclcmd_get.c:643 | a single key below an object is found exactly when some entry holds it, as that entry's head and chain |
| Tree.LenCountsChildren | uclcmd_get.c:290 | the `len` field counts the children iteration yields for an array or object, a string's characters, and is 0 otherwise |
| Tree.Len | uclcmd_get.c:290 | the `len` field of a node: keys of an object, elements of an array, characters of a string, else 0; no contract of its own, its meaning is stated by Tree.LenCountsChildren |
| Tree.ArrayIndexOf | uclcmd_common.c:93 | the index looked up is below 2^32, and equals strtoul base 10 when that fits |
| Tree.ArrayIndexRoundTrip | uclcmd_get.c:410 | an index printed in decimal is all digits and is looked up as the same index |
| Tree.Descend | uclcmd_common.c:85-86 | one segment below an object finds an entry exactly when the key is present, and then the first entry holding it; any step found is valid |
| Library.ObjectView | uclcmd_set.c:315-316 | a null value takes keys as an empty object; only objects and null do |
| Library.Keys | uclcmd_common.c:43 | the keys of an object, in order |
| Library.Values | uclcmd_merge.c:292 | what a key holds is empty exactly when the key is missing |
| Library.FindKeyAppend | uclcmd_set.c:315-316 | appending an entry finds an existing key where it was and a new key at the end |
| Library.FindKeyUpdate | uclcmd_set.c:318-319 | replacing an entry under the same key changes no lookup |
| Library.FindKeyRemoveSame | uclcmd_remove.c:182 | with unique keys, the removed key is no longer found |
| Library.FindKeyRemoveOther | uclcmd_remove.c:182 | other keys are found one place earlier after the removed entry, unchanged before it |
| Library.ValuesRemove | uclcmd_remove.c:182 | removing an entry empties its key and leaves every other key's values |
| Library.InsertKey | uclcmd_set.c:315-316 | ucl_object_insert_key: succeeds exactly for an object or null target and a value, appends the value to the key's chain, keeps other keys, and adds a new key at the end |
| Library.ReplaceKey | uclcmd_set.c:318-319 | ucl_object_replace_key: the key then holds only the new value, other keys keep theirs, and the flag says the key was there before |
| Library.InsertKeyMerged | uclcmd_merge.c:268-269 | ucl_object_insert_key_merged: inserts into an object it already holds under the key, otherwise appends to the chain; other keys keep their values |
| Library.DeleteKey | uclcmd_remove.c:182 | ucl_object_delete_key: succeeds exactly when an object holds the key, removes one entry and its chain, keeps the others |
| Library.ArrayAppend | uclcmd_set.c:298 | ucl_array_append: the old elements, then the value; fails only without a value |
| Library.ArrayMerge | uclcmd_merge.c:215 | ucl_array_merge: both must be arrays; the result is their concatenation |
| Library.ArrayReplaceIndex | uclcmd_set.c:300-301 | ucl_array_replace_index: returns the displaced element exactly when the index is inside the array, and changes nothing otherwise |
| Library.ArrayDeleteAt | uclcmd_remove.c:171 | ucl_array_delete: one element fewer, the others in their order |
| Library.Document.constructor | uclcmd_remove.c:146-148 | the document holds the parsed root |
| Library.Document.Put | uclcmd_set.c:290-322 | the node at a location is replaced in place and is found there afterwards |
| Common.Replaced | uclcmd_common.c:153-163 | the text with every old separator turned into the new one, same length, other characters kept |
| Common.ReplacedEffect | uclcmd_common.c:153-163 | equal separators change nothing; otherwise no old separator is left |
| Common.ReplacedIdempotent | uclcmd_output.c:94 | rewriting twice is rewriting once, so output_key's second rewrite is harmless |
| Common.Rewrite | uclcmd_common.c:157-162 | the in-place loop leaves the array equal to Replaced of its old contents |
| Common.ReplaceSep | uclcmd_common.c:153-163 | replace_sep rewrites the buffer in place and returns at once, changing nothing, for equal separators |
| Common.KindName | uclcmd_common.c:166-201 | every kind's name is a UCL_ constant name |
| Common.TypeAsString | uclcmd_common.c:166-201 | NULL exactly for an absent node, otherwise the kind's name |
| Common.KindNamesDistinct | uclcmd_common.c:166-201 | two nodes get the same name exactly when they have the same kind |
| Common.SplitPath | uclcmd_common.c:68-84 | the split at the last separator: the fragment holds none, no prefix exactly without a separator or for a lone separator, and prefix, separator and fragment give the path back |
| Common.GetParent | uclcmd_common.c:115-150 | the root without a separator, otherwise what the prefix finds, NULL when nothing |
| Common.FragmentStep | uclcmd_common.c:91-97 | under an array, the element strtoul(frag, 10) names when inside; under an object, the key's entry; nothing under anything else |
| Common.GetObject | uclcmd_common.c:60-112 | NULL exactly when the parent is NULL; the parent when there is no separator or the fragment finds nothing; else the child one step below |
| Common.GetObjectWithoutSeparator | uclcmd_common.c:68-76 | a lone separator or a path without one names the root, as its own parent |
| Common.NonNumericFragmentIsIndexZero | uclcmd_common.c:93 | under an array, a fragment that is not a number selects element 0 |
| Common.GetObjectBelowParent | uclcmd_common.c:91-100 | a target different from its parent is one step below it, found by its key or index |
| Common.PresentKeys | uclcmd_common.c:43-53 | no more keys than children; which keys, by Common.PresentKeysAreKeys |
| Common.PresentKeysAreKeys | uclcmd_common.c:43-53 | a key is listed exactly when some child holds it: keyless children are skipped and no key is invented |
| Common.AppendKeys | uclcmd_common.c:51-52 | appending keys never shortens the list |
| Common.SubkeysFrom | uclcmd_common.c:43-53 | the key list with the corrected room check never exceeds 1023 characters |
| Common.Subkeys | uclcmd_common.c:32-57 | expand_subkeys: "" for NULL, and always fits the 1024-byte buffer with its NUL |
| Common.SubkeysJoin | uclcmd_common.c:43-53 | when every key fits, the list is the keys joined by single spaces |
| Common.SubkeysOfObject | uclcmd_common.c:32-57 | for an object whose keys fit, the result is its keys joined by spaces |
| Common.Strcat | uclcmd_common.c:47-52 | strcat into the buffer appends the text and stays inside it |
| Common.ExpandSubkeys | uclcmd_common.c:32-57 | filling a 1024-char buffer step by step gives Subkeys, never writing past its end |
| Common.SubkeysAsWrittenOverflows | uclcmd_common.c:46 | the room check as written lets keys of 1015, 4 and 1 characters fill all 1024 bytes, leaving none for the NUL |
| Common.SubkeysAsWrittenLongKey | uclcmd_common.c:46 | a key over 1019 characters wraps the size_t bound and is copied whole past the buffer |
| Common.SubkeysCorrectedFits | uclcmd_common.c:46 | the corrected check keeps the same keys inside the buffer |
| Common.SubkeysAsWritten | uclcmd_common.c:43-53 | as written, the list only grows: what was written stays a prefix |
| Output.Sink.constructor | uclcmd_output.c:83-203 | output starts empty, on the first line |
| Output.Sink.Write | uclcmd_output.c:311-430 | a record is appended; nonewline mode ends the first line |
| Output.Emit | uclcmd_output.c:126-130 | the record is appended and firstline stays true only without nonewline |
| Output.OutputKey | uclcmd_output.c:311-430 | output_key writes exactly one record and hands back the nodepath with input separators rewritten |
| Output.ChunkPath | uclcmd_output.c:91-94 | the nodepath keeps its length and holds no input separator after the rewrite |
| Output.OutputChunk | uclcmd_output.c:83-203 | output_chunk writes exactly one record except for an unknown output type, which writes none; it rewrites the nodepath |
| Output.TextRecordFraming | uclcmd_output.c:311-430 | every text record but the first starts with a space and, without nonewline, ends with a newline |
| Output.AbsentNodeText | uclcmd_output.c:311-430 | an absent node prints "null" after the label |
| Output.StringText | uclcmd_output.c:311-430 | a string's record is the leading space, `nodepath key=` when keys are on, the text quoted unless raw mode is on, and the ending |
| Output.PlaceholderText | uclcmd_output.c:311-430 | objects, arrays and userdata print `{object}`, `[array]` and `{userdata}` after the `nodepath key=` label; a null value prints only the leading space and the ending |
| Output.ChunkTextIsOutputKey | uclcmd_output.c:97-100 | in text mode output_chunk is output_key on the rewritten nodepath and key |
| Output.ChunkPathCharacters | uclcmd_output.c:91-94 | each character: '.' to '_' in shell-variable mode, then input to output separator |
| Output.StructuredLabel | uclcmd_output.c:118-195 | a structured record carries `nodepath key=` exactly when keys are on and the key is not empty, then the emitted text |
| Output.StructuredNewline | uclcmd_output.c:115-195 | without nonewline, a UCL or JSON record ends in a newline, and one is added exactly when the emitted text does not already end in one; compact JSON, YAML and msgpack always get one added; nonewline adds none |
| Output.WriteKey | uclcmd_output.c:311-430 | the sink method equals the output_key specification |
| Output.WriteChunk | uclcmd_output.c:83-203 | the sink method equals the output_chunk specification |
| Output.Lead | uclcmd_output.c:323-325 | a text record starts with a space exactly when it is not on the first line |
| Output.Ending | uclcmd_output.c:423-427 | a text record ends in a newline exactly when nonewline mode is off |
| Output.Label | uclcmd_output.c:344-345 | with keys on, the label is the nodepath, the key and "="; with keys off, nothing |
| Output.TextValue | uclcmd_output.c:338-420 | a null value prints nothing, not even the label; any other value prints the label first, and every non-string value and a quoted string add text after it |
| Output.StructuredEnding | uclcmd_output.c:115-195 | the record gets at most one newline, none in nonewline mode, and otherwise ends in a newline |
| Output.KeyedRecord | uclcmd_output.c:311-430 | a present node's record is the leading space, the value text after the label, and the ending |
| GetText.ChunkPathSettles | uclcmd_output.c:91-94 | without shell-variable mode, or with an output separator other than '.', a second rewrite changes nothing |
| Get.NodeOf | uclcmd_get.c:195-196 | a handle is present exactly when its node is |
| Get.KeyOf | uclcmd_get.c:660 | ucl_object_key of a handle that may be NULL: no key for NULL, else the handle's own key |
| Get.Select | uclcmd_get.c:165-185 | "" and a lone separator select the root under an empty nodepath; any other request is looked up, one leading separator stripped, and that path is the nodepath |
| Get.TypeWord | uclcmd_get.c:318-349 | the word type prints is type_as_string's name without "UCL_", in lower case |
| Get.ValueKey | uclcmd_get.c:408-416 | values keys a child by the output separator and its index under an array or its key under an object; an object member without a key gets none |
| Get.RecurseKey | uclcmd_get.c:511-519 | recurse keys a child by the separator and its index or key, and by the bare key at the top of an object |
| Get.RecursePath | uclcmd_get.c:522-531 | a compound child's values are recursed with the nodepath and the key; at the top, the array counter or the value's own key |
| Get.EachKey | uclcmd_get.c:564-570 | each keys a child by the output separator and its index or key |
| Get.NoneKey | uclcmd_get.c:652-660 | a lookup followed by a command extends the nodepath by the separator and the lookup counter under an array, or the found node's key |
| Get.RecurseOnValue | uclcmd_get.c:522-535 | one turn of the inner loop advances RecurseChain by one value and keeps the nodepath |
| Get.OptChain | uclcmd_get.c:446 | a NULL node has no chain; otherwise its own chain |
| Get.Expanded | uclcmd_get.c:572-580 | each visits the child itself first, then the rest of an implicit array |
| Get.Process | uclcmd_get.c:225-271 | process_get_command never reports a depth below its own and only appends output |
| Get.CmdLength | uclcmd_get.c:277-299 | length reports its own depth and nodepath and only appends; its record is GetText.LengthRecord |
| Get.CmdType | uclcmd_get.c:305-358 | type reports its own depth and nodepath; its record is GetText.TypeRecord |
| Get.KeysOut | uclcmd_get.c:372-383 | the keys loop only appends |
| Get.CmdKeys | uclcmd_get.c:364-390 | keys reports its own depth and nodepath |
| Get.ValuesOut | uclcmd_get.c:405-422 | the values loop only appends; its records are stated by GetText.ValuesOutLabelled |
| Get.WriteValueChild | uclcmd_get.c:404-422 | one turn of values' loop: child i printed under its key, with the array counter advanced by one, equal to one more step of ValuesOut |
| Get.CmdValues | uclcmd_get.c:396-429 | values runs, at its own depth; its labels and values are stated by GetText.ValuesOfObject and GetText.ValuesOfArray |
| Get.ChunksOut | uclcmd_get.c:446-449 | the iterate printing loop only appends; which value each chunk shows is GetText.IterateShowsChain |
| Get.RunChain | uclcmd_get.c:456-460 | the depth is the last run's or the starting one |
| Get.CmdIterate | uclcmd_get.c:435-468 | iterate never reports less than its depth; what it prints as the last command is GetText.IterateShowsChain |
| Get.RecursePrelude | uclcmd_get.c:483-506 | the prelude only appends; its records are GetText.RecursePreludeRecords |
| Get.CmdRecurse | uclcmd_get.c:474-548 | recurse never reports less than its depth; the policy of its prelude and loop is GetText.RecursePreludeRecords and GetText.RecurseLoopStep |
| Get.RecurseLoop | uclcmd_get.c:508-546 | the loop's depth is the last run's, at least one deeper |
| Get.RecurseChain | uclcmd_get.c:522-535 | every value of a compound child's chain is recursed into; the nodepath is kept |
| Get.EachOut | uclcmd_get.c:562-583 | each without a further command only appends; every record is GetText.EachPrintsEveryValue with GetText.FlattenRecords |
| Get.EachRun | uclcmd_get.c:587-619 | the depth is the last child's or the starting one; the nodepath is kept |
| Get.EachRunStep | uclcmd_get.c:590-612 | one pass of each's loop |
| Get.EachRunDone | uclcmd_get.c:590 | the loop ends after the last child |
| Get.EachChild | uclcmd_get.c:591-611 | one child, under the nodepath extended by its key |
| Get.CmdEach | uclcmd_get.c:554-621 | each never reports less than its depth |
| Get.NoneOut | uclcmd_get.c:637-647 | the lookup loop without a further command only appends; its records are GetText.LookupPrintsEveryPath |
| Get.NoneRun | uclcmd_get.c:637-672 | the lookup loop's depth is the last run's or the starting one |
| Get.NoneLookup | uclcmd_get.c:643-669 | one lookup handed the next command keeps the nodepath, and reports the level it had or one at least as deep; the lookup itself is GetText.LookupThenCommand |
| Get.CmdNone | uclcmd_get.c:627-675 | the lookup command never reports less than its depth; the split at spaces and each piece's lookup are GetText.LookupPrintsEveryPath |
| Get.RootHandle | uclcmd_get.c:163 | the root's handle holds the root |
| Get.ModeLoop | uclcmd_get.c:190-220 | get_mode's loop only appends |
| Get.Mode | uclcmd_get.c:153-222 | get_mode only appends |
| Get.ProcessGetCommand | uclcmd_get.c:225-271 | the method equals process_get_command's specification |
| Get.GetCmdLength | uclcmd_get.c:277-299 | the method equals the length specification |
| Get.GetCmdType | uclcmd_get.c:305-358 | the method equals the type specification |
| Get.GetCmdKeys | uclcmd_get.c:364-390 | the method equals the keys specification |
| Get.GetCmdValues | uclcmd_get.c:396-429 | the method equals the values specification |
| Get.WriteValues | uclcmd_get.c:405-422 | the loop equals ValuesOut, nodepath included |
| Get.WriteChunks | uclcmd_get.c:446-449 | the loop equals ChunksOut |
| Get.RunOnEach | uclcmd_get.c:456-460 | the loop equals RunChain |
| Get.GetCmdIterate | uclcmd_get.c:435-468 | the method equals the iterate specification |
| Get.WriteRecursePrelude | uclcmd_get.c:483-506 | the method equals RecursePrelude |
| Get.RecurseOnValues | uclcmd_get.c:522-535 | the inner loop equals RecurseChain |
| Get.GetCmdRecurse | uclcmd_get.c:474-548 | the method equals the recurse specification |
| Get.GetCmdEach | uclcmd_get.c:554-621 | the method equals the each specification |
| Get.WriteEach | uclcmd_get.c:562-583 | the loop equals EachOut |
| Get.WriteEachChild | uclcmd_get.c:568-582 | one turn of each's loop: child i's values printed under its key, with the array counter advanced by one, equal to one more step of EachOut |
| Get.RunOnChildren | uclcmd_get.c:587-619 | the loop equals EachRun |
| Get.RunOnChild | uclcmd_get.c:591-611 | the loop body equals EachChild |
| Get.GetCmdNone | uclcmd_get.c:627-675 | the method equals the lookup specification |
| Get.WriteLookups | uclcmd_get.c:637-647 | the loop equals NoneOut |
| Get.RunOnLookups | uclcmd_get.c:637-672 | the loop equals NoneRun |
| Get.RunOnLookup | uclcmd_get.c:643-669 | the loop body equals NoneLookup |
| Get.GetMode | uclcmd_get.c:153-222 | the method equals the get_mode specification |
| Get.RunCommands | uclcmd_get.c:190-212 | the command loop equals ModeLoop |
| Get.RunCommand | uclcmd_get.c:195-211 | one pass consumes at least one command and leaves what remains of ModeLoop unchanged |
| GetProps.SimpleCommandKeepsDepth | uclcmd_get.c:234-247 | length, type, keys and values hand back the depth and nodepath they got |
| GetProps.InvalidCommandExits | uclcmd_get.c:260-264 | any other word not starting with the separator exits 1, printing nothing |
| GetProps.KeysOutRecords | uclcmd_get.c:372-383 | the keys loop writes one record per child with its key, leading space and newline |
| GetProps.KeysListsEntries | uclcmd_get.c:364-390 | keys on an object prints its keys in order, one record each |
| GetProps.KeysOfArrayArePlaceholders | uclcmd_get.c:376 | keys on an array prints "(null)" per element |
| GetProps.ValuesOutCount | uclcmd_get.c:405-422 | the values loop writes one record per child |
| GetProps.ValuesOneRecordPerChild | uclcmd_get.c:396-429 | values prints one record per child, none for NULL |
| GetProps.ChunksOutCount | uclcmd_get.c:446-449 | one chunk per handle unless the output type is unknown |
| GetProps.IterateOneChunkPerValue | uclcmd_get.c:443-449 | iterate as the last command prints one chunk per value of the node's own chain |
| GetProps.RunChainSimple | uclcmd_get.c:456-460 | a simple command after iterate reports one level deeper when the chain is not empty |
| GetProps.EachRunSimple | uclcmd_get.c:587-619 | a simple command after each reports one level deeper when there are children |
| GetProps.EachAppliesNext | uclcmd_get.c:554-621 | each with a simple command and children reports depth + 1 |
| GetProps.EachWithoutChildren | uclcmd_get.c:584-590 | each without children prints nothing and keeps its depth |
| GetProps.SimplePipeline | uclcmd_get.c:190-212 | a pipeline of simple commands runs each once and counts them all |
| GetProps.EachConsumesNext | uclcmd_get.c:202-207 | at the top, each with children consumes the command after it |
| GetProps.EachOnLeafRerunsNext | uclcmd_get.c:202-207 | each on a childless node leaves the next command to run on the node itself |
| GetProps.NoCommandPrintsNode | uclcmd_get.c:218-220 | a request without commands prints the selected node once |
| GetProps.RootRequests | uclcmd_get.c:165-175 | "" and a lone separator both select the root under an empty nodepath |
| GetProps.SimpleStep | uclcmd_get.c:195-211 | a simple command at the head of the pipeline is dropped alone and counted once |
| GetProps.EachChildSimple | uclcmd_get.c:591-611 | one child of each followed by a simple command reports depth + 1 and keeps the nodepath |
| GetText.LengthRecord | uclcmd_get.c:277-299 | length prints one record: the leading space, "(null)=" for NULL or the bare nodepath when keys are on, the count in decimal (0 for NULL), and the ending |
| GetText.TypeRecord | uclcmd_get.c:305-358 | type prints one record: "(null)=null" for NULL, otherwise `nodepath=` when keys are on and the word for the node's kind, which is type_as_string's name |
| GetText.OutputKeyRecord | uclcmd_output.c:311-430 | output_key's record is the leading space, the text for the rewritten nodepath and key, and the ending |
| GetText.KeyItemsRecords | uclcmd_get.c:405-422 | a run of output_key calls writes one record per item, item k on the nodepath as rewritten |
| GetText.ValuesOutItems | uclcmd_get.c:405-422 | the values loop is a run of output_key over every child with its values key |
| GetText.ValuesOutLabelled | uclcmd_get.c:405-422 | the values loop writes one record per child, record k being child k with its label |
| GetText.ValuesOfObject | uclcmd_get.c:396-429 | values on an object prints each member's head value in order, labelled with the nodepath, the separator and the key |
| GetText.ValuesOfArray | uclcmd_get.c:396-429 | values on an array prints each element in order, labelled with the nodepath, the separator and the index |
| GetText.NoneOutLookups | uclcmd_get.c:637-647 | the lookup loop is a run of output_key over what each piece finds |
| GetText.LookupPrintsEveryPath | uclcmd_get.c:637-647 | a path command as the last command prints one record per space-separated piece, in order: what the piece finds below the node, labelled with the piece |
| GetText.LookupRecord | uclcmd_get.c:643-647 | record k of the lookup loop is token k's lookup under its own label |
| GetText.KeyItemRecordAt | uclcmd_output.c:311-430 | record k of a run of output_key calls is item k with its key |
| GetText.LookupLast | uclcmd_get.c:637-647 | a path command as the last command is its lookup loop, at its own depth |
| GetText.LookupPieces | uclcmd_get.c:640 | the pieces hold no space and, glued back with spaces, give the command |
| GetText.LookupThenCommand | uclcmd_get.c:648-669 | a single path followed by commands runs the next one on what it finds, one level deeper, under the extended nodepath |
| GetText.ChunkRecord | uclcmd_output.c:83-203 | output_chunk's record depends on the state only through firstline, and ends the first line unless nonewline is on |
| GetText.ChunkFirstline | uclcmd_output.c:126-130 | after a record, firstline stays true only in nonewline mode |
| GetText.ChunkItemsCount | uclcmd_output.c:91-94 | a run of output_chunk calls writes one record per item and leaves the buffer rewritten once per item |
| GetText.ChunkItemsRecord | uclcmd_output.c:83-203 | record k of a run is item k under the nodepath rewritten k + 1 times |
| GetText.ChunkItemsStep | uclcmd_output.c:83-203 | the first call of a run writes one record and rewrites the buffer once |
| GetText.ChunkItemsFirst | uclcmd_output.c:83-203 | the first record of a run is its first item's |
| GetText.ChunkItemsRecords | uclcmd_output.c:83-203 | every record of a run, item by item |
| GetText.ChunkItemsAppend | uclcmd_output.c:83-203 | a run over two lists is the second run after the first |
| GetText.ChunksOutItems | uclcmd_get.c:446-449 | the iterate loop is a run of output_chunk over the chain under the empty key |
| GetText.UnderStep | uclcmd_get.c:446-449 | one value of the chain, then the rest |
| GetText.IterateShowsChain | uclcmd_get.c:443-449 | iterate as the last command prints the node, then each value of its chain, one record each under the nodepath as rewritten so far |
| GetText.RewrittenSettles | uclcmd_output.c:91-94 | without the '.' to '_' clash, every chunk after the first shares one nodepath |
| GetText.RewrittenDrifts | uclcmd_output.c:91-94 | in shell-variable mode with '.' as output separator, the first chunk shows "a.b" and the next "a_b" |
| GetText.RewrittenStep | uclcmd_output.c:91-94 | one more rewrite of the buffer after m of them is m + 1 rewrites |
| GetText.FlattenKeep | uclcmd_get.c:562-583 | later children only add records after the earlier ones |
| GetText.FlattenAt | uclcmd_get.c:562-583 | value m of child i is item `|Flatten(gs, i)| + m` |
| GetText.FlattenAtItem | uclcmd_get.c:562-583 | the same, for a known item |
| GetText.EachOutItems | uclcmd_get.c:562-583 | the each loop is a run of output_chunk over the children's groups one after the other |
| GetText.EachGroupEntry | uclcmd_get.c:571-579 | group i is child i's implicit array, value by value, under the child's key |
| GetText.ChunkItemsRecordAt | uclcmd_output.c:83-203 | record k of a run is item k, whatever list holds it |
| GetText.FlattenRecords | uclcmd_get.c:562-583 | over groups, value m of group i is the record at its place, under the nodepath rewritten that many times plus one |
| GetText.GroupRecordHolds | uclcmd_get.c:562-583 | one such record |
| GetText.EachPrintsEveryValue | uclcmd_get.c:562-583 | each as the last command prints the groups of its children one after the other, at its own depth |
| GetText.PreludeCount | uclcmd_get.c:483-506 | recurse prints at most two records before its loop, none exactly for an empty nodepath unless expand mode shows an object's keys |
| GetText.RecursePreludeRecords | uclcmd_get.c:483-506 | the prelude's records one by one: the node with no key, then an array's `_length` count, and last an object's `_keys` list, each under the buffer rewritten once more |
| GetText.ChunkAfter | uclcmd_output.c:83-203 | an output_chunk call after m records of a run is record m, under the buffer rewritten m + 1 times |
| GetText.RecursePathOfChild | uclcmd_get.c:509-531 | the key and counter recurse builds give the nodepath of ChildPath: nodepath, separator and index or key; at the top the counter after the increment or the value's key |
| GetText.RecurseLoopStep | uclcmd_get.c:508-546 | a compound child hands each value of its chain to recurse one level deeper under ChildPath; a scalar child is printed under its recurse key |
| GetText.ChildRunsIsChain | uclcmd_get.c:522-535 | the inner loop is the run of ChildRuns over the chain |
| GetProps.LeadingSeparatorOptional | uclcmd_get.c:177-180 | one leading separator on the node name changes nothing |
| SetCmd.Coerce | uclcmd_set.c:209-262 | int, float and boolean requests always give that kind; string keeps the text; time gives time, int or float; compound kinds parse |
| SetCmd.NewValue | uclcmd_set.c:201-263 | the value comes from the include file, from stdin for no data or "-", otherwise from the inline data |
| SetCmd.AfterLast | uclcmd_set.c:287-288 | strrchr + 1: the text after the last separator, none exactly without a separator |
| SetCmd.ReplaceIndexAt | uclcmd_set.c:300-307 | success exactly when an element was displaced, and then only that element changes |
| SetCmd.Attach | uclcmd_set.c:287-322 | the corrected attach always finishes, failing with no change when the parent is NULL |
| SetCmd.SetSpec | uclcmd_set.c:188-325 | exit 6 with nothing changed exactly on a type mismatch |
| SetCmd.Mismatch | uclcmd_set.c:265 | the exact-type check, waived for a request of type null; no contract of its own, it is the condition SetCmd.SetSpec exits 6 on |
| SetCmd.SetMode | uclcmd_set.c:188-325 | the method changes the document as SetSpec says |
| SetCmd.IntRequestFallsBack | uclcmd_set.c:214-220 | an int request that does not parse as one is strtoimax base 0 |
| SetCmd.BooleanRequestFallsBack | uclcmd_set.c:231-242 | a boolean request that does not parse is false for empty text and true otherwise |
| SetCmd.ForcedKindsPassCheck | uclcmd_set.c:265-270 | forced kinds never fail the exact-type check |
| SetCmd.TimeRequestRejectsNumbers | uclcmd_set.c:243-270 | a time request that parses as a number exits 6 |
| SetCmd.DefaultRequestChecksParsedInput | uclcmd_set.c:201-206 | file or stdin input that is not a string exits 6 under the default request |
| SetCmd.AttachReplacesTarget | uclcmd_set.c:299-320 | an existing target is replaced, succeeds, and the path then selects the new value |
| SetCmd.FindKeyFirst | uclcmd_set.c:318-319 | the entry found holds the key's whole chain |
| SetCmd.AttachAppendsToArray | uclcmd_set.c:296-298 | a missing target under an array is appended at the end |
| SetCmd.AttachInsertsIntoObject | uclcmd_set.c:313-316 | a missing target under an object is inserted under the fragment; other keys keep their values |
| SetCmd.MismatchLeavesDocument | uclcmd_set.c:265-270 | a refused value leaves the tree alone |
| SetCmd.AsWrittenIndexBaseZero | uclcmd_set.c:300-301 | as written, the replaced index is strtoul(frag, NULL, 0) cut to unsigned int |
| SetCmd.CorrectedIndexBaseTen | uclcmd_common.c:93 | the corrected attach replaces the index get_object read in base 10 |
| SetCmd.OctalIndexReplacesAnotherElement | uclcmd_set.c:300-301 | as written, setting "a.010" replaces element 8 |
| SetCmd.CorrectedIndexReplacesSelected | uclcmd_set.c:300-301 | corrected, setting "a.010" replaces element 10, the one get_object selected |
| SetCmd.TopLevelKeyWithoutSeparator | uclcmd_set.c:287-288 | as written, a new top-level key without a separator dereferences strrchr's NULL + 1; corrected, it is inserted |
| SetCmd.AttachAsWritten | uclcmd_set.c:287-322 | as written, a NULL parent fails with no change, and the crash happens only for a new value under a path without a separator |
| Merge.MergeEntry | uclcmd_merge.c:285-349 | one merged key: objects and null take keys; anything else fails unchanged |
| Merge.MergeFrom | uclcmd_merge.c:285-352 | the loop succeeds only if it ran a key or started successful; a non-object target fails unchanged |
| Merge.MergeRec | uclcmd_merge.c:276-352 | merge_recursive of an empty object fails, since success starts false |
| Merge.MergeOne | uclcmd_merge.c:286-349 | the method equals MergeEntry |
| Merge.MergeRecursive | uclcmd_merge.c:276-352 | the method equals MergeRec |
| Merge.MergeEntryKeys | uclcmd_merge.c:285-349 | keys the target had stay, and a merged key is present on success |
| Merge.MergeKeysKept | uclcmd_merge.c:276-352 | the target stays an object and keeps all its keys, even when the merge stops at a failure |
| Merge.MergeKeysAdded | uclcmd_merge.c:276-352 | when the merge succeeds, every merged-in key is in the target |
| Merge.MergeEntryNewKey | uclcmd_merge.c:293-302 | a key the target lacks is inserted as it is |
| Merge.MergeEntryArray | uclcmd_merge.c:310-328 | an array onto an array is concatenated; onto anything else it fails unchanged |
| Merge.MergeEntryScalar | uclcmd_merge.c:329-348 | a scalar onto an existing key replaces its whole chain |
| Merge.MergeInput | uclcmd_merge.c:183-192 | the tree comes from the include file, stdin, or the parsed inline data |
| Merge.IndexIn | uclcmd_merge.c:252-253 | ucl_array_index_of gives the position of an element of the array |
| Merge.PutChange | uclcmd_merge.c:215 | the changed node is found at its location and the flag is kept |
| Merge.MergeSpec | uclcmd_merge.c:164-273 | a path that finds nothing fails with the tree unchanged |
| Merge.MergeMode | uclcmd_merge.c:164-273 | the method changes the document as MergeSpec says |
| Merge.MergeConcatenatesArrays | uclcmd_merge.c:210-215 | two arrays are concatenated in place |
| Merge.MergeAppendsToArray | uclcmd_merge.c:216-221 | anything else is appended to an array |
| Merge.MergeObjectsKeepsKeys | uclcmd_merge.c:222-235 | two objects merge key by key: keys kept, and merged keys present on success |
| Merge.MergeScalarInArray | uclcmd_merge.c:236-258 | a scalar inside an array becomes the pair of old and new values |
| Merge.MergeAtScalarInArray | uclcmd_merge.c:251-258 | the same, at a known index |
| Merge.MergeScalarUnderKey | uclcmd_merge.c:259-262 | a scalar under a key becomes the pair, alone under that key |
| Merge.MergeIntoObjectUnderOwnKey | uclcmd_merge.c:263-270 | a non-object into an object is inserted under the object's own key, inside it |
| Merge.MergeAt | uclcmd_merge.c:210-221 | anything merged into an array target succeeds exactly when there is something to merge |
| Remove.RemoveOne | uclcmd_remove.c:151-197 | one pass: the tree changes only when the path is removed |
| Remove.IndexOf | uclcmd_remove.c:169 | ucl_array_index_of gives the position of an element |
| Remove.RemoveFrom | uclcmd_remove.c:151-197 | one outcome per path; no removal leaves the tree as it was |
| Remove.RemoveFromStep | uclcmd_remove.c:151-197 | one pass of the loop, then the rest |
| Remove.RemoveAll | uclcmd_remove.c:151-197 | one outcome per path; no removal leaves the tree as it was |
| Remove.RemoveLoop | uclcmd_remove.c:151-197 | the loop changes the document as RemoveAll says |
| Remove.RemoveMode | uclcmd_remove.c:151-202 | the loop, then get_mode("") on the result, exit 0 |
| Remove.RemovedIffChild | uclcmd_remove.c:154-163 | a path is removed exactly when it names a child below its parent |
| Remove.RemoveFromArray | uclcmd_remove.c:166-175 | from an array the element goes and the others keep their order |
| Remove.RemoveFromObject | uclcmd_remove.c:176-182 | from an object with unique keys the key goes with its chain, other keys unchanged |
| Remove.SkippedPathChangesNothing | uclcmd_remove.c:155-163 | a skipped path changes nothing, and the rest run as if it were absent |
| Legacy.Stdout.constructor | uclcmd.c:417-512 | stdout starts empty |
| Legacy.Stdout.Printf | uclcmd.c:718-815 | printf appends one record |
| Legacy.ReplaceSep | uclcmd.c:818-827 | the buffer becomes Replaced of its old contents; the same pointer returns at once, unchanged |
| Legacy.ShowKey | uclcmd.c:718-815 | the nodepath comes back rewritten; at most one record is appended; a null value prints nothing; the text is Legacy.ShowKeyText |
| Legacy.OutputKey | uclcmd.c:718-815 | the method equals ShowKey, nodepath included |
| Legacy.KeyLines | uclcmd.c:581-591 | one line per child, its key as printf shows it |
| Legacy.ValuesOut | uclcmd.c:592-613 | the values loop only appends; its lines are Legacy.ValuesOutLines |
| Legacy.Process | uclcmd.c:515-707 | process_get_command never reports a level below its own and only appends; the lines length, type and values print are stated by Legacy.LengthPrintsCount, Legacy.TypePrintsWord and Legacy.ValuesPrintsLines |
| Legacy.CmdEach | uclcmd.c:614-659 | each never reports less than its level |
| Legacy.EachRun | uclcmd.c:637-656 | the level is the last child's or the starting one; the nodepath is kept |
| Legacy.EachRunStep | uclcmd.c:637-656 | one pass of each's loop |
| Legacy.CmdLookup | uclcmd.c:660-696 | the lookup never reports less than its level |
| Legacy.Final | uclcmd.c:480-510 | the final switch only appends |
| Legacy.ModeLoop | uclcmd.c:452-475 | get_mode's loop only appends |
| Legacy.Mode | uclcmd.c:417-512 | get_mode only appends |
| Legacy.ProcessGetCommand | uclcmd.c:515-707 | the method equals Process |
| Legacy.PrintKeys | uclcmd.c:581-591 | the loop prints KeyLines |
| Legacy.PrintValues | uclcmd.c:592-613 | the loop equals ValuesOut |
| Legacy.GetCmdEach | uclcmd.c:614-659 | the method equals CmdEach |
| Legacy.RunOnChildren | uclcmd.c:637-656 | the loop equals EachRun |
| Legacy.RunOnChild | uclcmd.c:638-654 | the loop body equals one step of EachRun |
| Legacy.GetCmdLookup | uclcmd.c:660-696 | the method equals CmdLookup |
| Legacy.GetMode | uclcmd.c:417-512 | the method equals Mode |
| Legacy.RunCommands | uclcmd.c:452-475 | the loop equals ModeLoop |
| Legacy.RunCommand | uclcmd.c:452-475 | one pass of the loop |
| Legacy.PrintFinal | uclcmd.c:480-510 | the method equals Final |
| Legacy.FindBelow | uclcmd.c:232-233 | found exactly when the node is an object holding the key |
| Legacy.Target | uclcmd.c:211-253 | a key without '.' targets the root with the whole key as fragment |
| Legacy.SetValue | uclcmd.c:255-287 | inline text is a scalar below a scalar and parsed below a compound; without it, stdin |
| Legacy.Without | uclcmd.c:301 | ucl_array_delete removes the element the key names and nothing otherwise |
| Legacy.SetSpec | uclcmd.c:205-315 | the set verb's status is 0 or 1 |
| Legacy.Set | uclcmd.c:205-315 | the method changes the tree as SetSpec says and prints the tree exactly on success |
| Legacy.Merge | uclcmd.c:316-319 | merge exits 99 |
| Legacy.RemoveAsWritten | uclcmd.c:358 | as written, the status is 1 exactly when the key was removed |
| Legacy.RemoveCorrected | uclcmd.c:358 | corrected, the status is 0 exactly when the key was removed |
| Legacy.Remove | uclcmd.c:342-360 | the method removes as RemoveCorrected says and prints the whole tree |
| Legacy.EachAloneIsValues | uclcmd.c:614-630 | each without a further command prints what values prints |
| Legacy.ValuesRewritesNodepath | uclcmd.c:592-613 | the values loop rewrites the caller's nodepath once it prints a child |
| Legacy.LengthAfterValuesSeesRewrittenPath | uclcmd.c:528-538 | `node\|values\|length` labels the length with the rewritten nodepath |
| Legacy.EachRunOfSimple | uclcmd.c:637-656 | a simple command after each reports one level deeper when there are children |
| Legacy.EachReportsNextLevel | uclcmd.c:631-656 | each with a simple command on a node with children reports level + 1 |
| Legacy.EachConsumesNextCommand | uclcmd.c:452-475 | so get_mode drops both and counts two |
| Legacy.EachOnChildlessNodeRunsNextOnNode | uclcmd.c:631-656 | each on a childless node lets the next command run on the node |
| Legacy.LookupBelowMissingNodeCrashes | uclcmd.c:676-679 | a lookup with a further command on a missing node dereferences NULL |
| Legacy.UnknownCommandExits | uclcmd.c:697-699 | any other command exits 1 before printing |
| Legacy.BareRequestPrintsNode | uclcmd.c:480-485 | a request without commands prints the node once via output_key |
| Legacy.SetInArrayMovesElementToEnd | uclcmd.c:300-304 | set below an array deletes the element and appends the value: it moves to the end |
| Legacy.SetInArrayAppendsWhenMissing | uclcmd.c:300-304 | set below an array with no such element appends |
| Legacy.SetWithMissingParentFails | uclcmd.c:237-242 | a prefix that finds nothing fails unchanged |
| Legacy.SetReplacesExistingKey | uclcmd.c:305-314 | an existing key gets only the new value and the verb succeeds |
| Legacy.SetNewKeyReportsFailure | uclcmd.c:305-314 | a new key is inserted but the verb exits 1, printing nothing |
| Legacy.RemoveStatusInverted | uclcmd.c:358 | as written, removal exits 1; corrected, it exits 0; the same tree either way |
| Legacy.KeyedLabelIsLabel | uclcmd.c:535-536 | length and type label a node with the nodepath as it is, sepchar and the node's own key, as output_key's label |
| Legacy.KeyedLabel | uclcmd.c:535-536 | `nodepath sepchar key =` when keys are shown; no contract of its own, stated by Legacy.KeyedLabelIsLabel |
| Legacy.LengthPrintsCount | uclcmd.c:528-538 | length prints one line: "(null)=" and 0 for NULL, otherwise the keyed label and the count iteration yields |
| Legacy.LengthLine | uclcmd.c:528-538 | the line length prints; no contract of its own, stated by Legacy.LengthPrintsCount |
| Legacy.TypePrintsWord | uclcmd.c:539-578 | type prints one line: "(null)=null" for NULL, otherwise the keyed label and the same word as the current engine |
| Legacy.TypeLine | uclcmd.c:539-578 | the line type prints; no contract of its own, stated by Legacy.TypePrintsWord |
| Legacy.ChildKeyText | uclcmd.c:600-605 | values keys a child by sepchar and the index or key, as the current engine's each does |
| Legacy.ChildKey | uclcmd.c:600-605 | sepchar and the decimal index under an array, else the child's key; no contract of its own, stated by Legacy.ChildKeyText |
| Legacy.ShowKeyText | uclcmd.c:718-815 | this output_key prints the current engine's text with '.' as the input separator and a newline, and nothing for a null value |
| Legacy.ValueLinesStep | uclcmd.c:592-613 | one child's line, then the rest |
| Legacy.KeptAll | uclcmd.c:592-613 | with no line missing, every line is kept in its place |
| Legacy.KeptCount | uclcmd.c:592-613 | with no line missing, every line is kept |
| Legacy.ValueLineShown | uclcmd.c:595-609 | one pass prints child i's line unless it is null, and the nodepath stays settled |
| Legacy.ValueLine | uclcmd.c:595-609 | the line values prints for child k: output_key's text under the rewritten nodepath and ChildKey; no contract of its own, stated by Legacy.ValueLinesAt |
| Legacy.ValuesOutLines | uclcmd.c:592-613 | the values loop prints every non-null child's line in order, on the nodepath rewritten once |
| Legacy.ValuesPrintsLines | uclcmd.c:592-613 | values prints those lines and hands back the nodepath rewritten once when there is a child |
| Legacy.ValueLinesAt | uclcmd.c:592-613 | with no null child, values prints one line per child and line k is child k's |

## Left out

- Multi-byte text. A Dafny string stands for the C byte string, one char per
  byte, so the "characters" counted by a string's `len` and by the 1024-byte
  buffer of `expand_subkeys` are bytes; characters encoded in several bytes are
  not modelled.
- Option parsing and the `*_main` functions, except the set, merge and remove
  branches of the legacy `main`. Reading files and stdin (`parse.c`,
  `output_open`, `output_close`) is left out too: the parsed trees are parameters
  (`Parsers` in `SetCmd` and `Merge`, `Inputs` in `Legacy`).
- `replace_file` and `ucl_obj_dump`. The `dump` command prints the node with
  `ucl_obj_dump` on stdout (`uclcmd_get.c:237-238`, `uclcmd_output.c:433-502`);
  the model prints nothing for it, so that output is not modelled.
- The bytes of libucl's emitters. They are a parameter `emit` of the
  configuration.
- A NULL emitter result. UCL output of an absent node leaves `result` NULL, and
  `strlen` then dereferences it. An empty result makes `result[-1]` be read. The
  model treats the emitted text as a string and checks an empty one.
- Floating point. Floats and times keep their text, and `%f` formatting and
  `strtod` are not modelled.
- libucl internals. The tree operations are stated by their contracts. The path
  lookup is assumed to skip empty segments, to find nothing for a path with no
  non-empty segment, and to need all digits for an array index.
- Debug output on stderr, the error messages, and `uclcmd.h`.
- `get_cmd_tab`. No command dispatches to it.
- Aliasing and reference counts. In-place pointer updates are modelled as new
  tree values put back at a location, and node identity as location equality.
- The legacy set reads at most 8192 bytes from stdin. The model takes the parsed
  stdin value as given.
- Legacy.ReplaceSep: the pointer comparison is a flag. The `"."` literals passed
  to it are taken to be one pooled string, so the rewrite is skipped exactly when
  `sepchar` is `"."`.
- Legacy.Remove: it follows the corrected exit status (0 on removal). The status
  as written is Legacy.RemoveAsWritten.
- SetCmd.SetMode: it uses the corrected attach step. The as-written step is
  SetCmd.AttachAsWritten.
- Common.ExpandSubkeys: it uses the corrected room check. The as-written check is
  Common.SubkeysAsWritten.
- Common.Subkeys: it uses the corrected room check (see the findings); the
  as-written list is Common.SubkeysAsWritten.
- Get.RecursePrelude: its `_keys` record prints Common.Subkeys, the list under
  the corrected room check, not the as-written one.
- `output_chunk` and `output_key` write to an output file. The model writes to
  one sink, so stdout and the `-o` file are not told apart.

## Findings

| source | as written | input that shows it | evidently intended | confidence | as-written member | corrected member |
|---|---|---|---|---|---|---|
| uclcmd_common.c:46 | the room check `strlen(result) > 1024 - 5 - strlen(key)` leaves out the space before the key, and in size_t arithmetic it wraps round for keys longer than 1019 characters | keys of 1015, 4 and 1 characters fill 1020 characters, then " ..." makes 1024 with no room for the NUL; a 1100-character key is copied past the buffer | count the space and never let the list pass 1023 characters | not executed | Common.SubkeysAsWritten, Common.SubkeysAsWrittenOverflows, Common.SubkeysAsWrittenLongKey | Common.ExpandSubkeys, Common.SubkeysCorrectedFits |
| uclcmd_set.c:300-301 | the array index is read with `strtoul(dst_frag, NULL, 0)`, but get_object found the element with base 10 | setting "a.010" where "a" holds 11 elements replaces element 8, not element 10 | replace the element the path selects (base 10) | not executed | SetCmd.AttachAsWritten, SetCmd.OctalIndexReplacesAnotherElement | SetCmd.Attach, SetCmd.CorrectedIndexReplacesSelected |
| uclcmd_set.c:287-288 | `strrchr` returns NULL for a path without a separator, and `dst_frag++` then points at address 1, which is then used as the key | setting a new key "k" in the root object | insert under the whole path | not executed | SetCmd.AttachAsWritten, SetCmd.TopLevelKeyWithoutSeparator | SetCmd.Attach, SetCmd.AttachInsertsIntoObject |
| uclcmd.c:358 | the flag of `ucl_object_delete_key` becomes the exit status, so a successful removal exits 1 and a missing key exits 0 | removing a key that exists | exit 0 on success, as every other verb does | not executed | Legacy.RemoveAsWritten, Legacy.RemoveStatusInverted | Legacy.RemoveCorrected, Legacy.Remove |
