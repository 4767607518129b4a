# A model of the RabbitControl engine and its WebSocket algorithms

The repository exposes the parameters of a program over a network: a server holds a tree of
parameters, clients hold replicas, and small binary packets keep them the same. This project
models that engine, the binary format it speaks, and the self-contained algorithms of the
WebSocket library it ships, and proves what they keep, undo and promise.

`dafny verify dfyconfig.toml` verifies everything.

## How it is built

| files | what they model |
|---|---|
| `Bytes`, `Streams` | octets, network byte order, input streams with their end-of-file flag, the binary writer |
| `Options`, `TypeDefinitions`, `TypeCodec`, `TypeObjects` | optional fields with "changed" flags; the option lists of type definitions; that they are read back; the objects that write and parse them in place |
| `Parameters`, `ParameterCodec`, `ParameterDelta`, `ParameterObjects` | parameters, their long and short form; that they are read back; what one flush does to a replica; the objects |
| `Packets`, `PacketObjects`, `FullDump`, `Userdata` | packets and payloads; when a full dump of a parameter arrives; when a parameter with userdata does |
| `Wire` | the same format in numbers: the octets of every option, value, update and removal, and the bounds within which they are read back |
| `Forest`, `ParameterManager` | the tree of groups; ids, dirty and removed maps, creation, moves, removal of subtrees |
| `Initialisation`, `Endpoints`, `Sessions`, `Echoes` | the dump of INITIALIZE and its replay; the server and the client as objects; the two of them from the request to the finished copy; what a removal makes a client send |
| `Convergence`, `Synchronisation`, `Network` | the synchronisation protocol by itself; one replica of a parameter on the wire; runs of server, clients and channels carrying octets, shown to be runs of the protocol |
| `ComingToRest`, `Settling`, `Joining` | when the protocol stops; the same for runs on octets; clients that join while the others run |
| `Moving`, `Sharing`, `Resting` | moves among groups; two protocols in the same packets as one; when runs with moves stop |
| `FrameMasking`, `FrameHeader`, `Utf8Validator`, `TextMessages`, `Uri` | WebSocket masking, frame headers, the UTF-8 automaton, text messages received in frames and pieces, uri parsing and printing |

Code that changes things step by step is a class or a method with loops, proved against a
function on values; the promises are then lemmas about those functions. Parsing functions read a
stream value and return what is left of it, so "nothing beyond it is consumed" is part of every
round trip. Numbers, colours, addresses and booleans are words of a fixed number of octets,
two's complement where signed.

The host is little-endian with a signed `char`; the two uninitialised flags `hasReadonly` and
`readonlyChanged` are taken as false; the reference that `removeParameterDirect` uses after
erasing it is a copy, and the map of children it iterates while shrinking it is a snapshot. Where
the code goes on from an uninitialised variable, a string length cut off by the end of the data
for instance, the model has a result of its own (`Fault`, `Undefined`, `Unknown`, `Garbled`,
`Unpredictable`) that no promise is made about.

## What came out

- A tiny string longer than 127 octets, or a short one longer than 65534, is not read back; the
  exact bounds are `Streams.StringRoundTripIff`. Language codes come back only if they have three
  octets without a zero and are not "any".
- `ValueParameter::write` takes the short form even for a full write. A full dump of a parameter
  whose value is its only pending change is misread: `FullDump.DumpArrivesIff`.
- A value-only flush of a range parameter is dropped by every receiver: `Network.RangeValueIsLost`.
- Dumping a parameter whose value is its only pending change also takes the value from the next flush:
  the clients already connected stay behind for good (`Joining.AnAnswerLosesTheValue`). With no such
  dump, clients may join at any time and all agree whenever all is quiet
  (`Joining.EveryQuietLiveNetAgrees`).
- Userdata is written without the length that its parser reads: a parameter comes back, up to its own
  end, exactly when no userdata was written (`Userdata.ParamReadsBackIff`).
- Replicas learn that tags, order, userid or readonly were cleared; of a cleared value they are sent
  the stored one, and of a cleared label or description nothing. Setting the old value again raises
  no flag, so tags, order, userid and readonly that are cleared and set to what they were, unless
  that is the default, stay cleared on every replica; a value, a label or a description arrives
  whatever it is (`ParameterDelta.WhatAClearTells`, `ParameterDelta.SetAfterClearArrivesIff`).
- Removing a group marks everything below it dirty, so the same flush that removes the group also
  sends updates of its former descendants, which clients then add again:
  `ParameterManager.RemovalLeavesOrphans`, `Endpoints.OrphanComesBack`.
- A client that hears of a removal drops the parameter and marks it dirty if it hung under a group. Its
  next update() sends it, the server forwards what it does not know, and the other clients have it
  again, without a parent and for good; the removed parameter itself exactly when it hung under a group
  there (`Echoes.EchoOfARemoval`).
- `addChild` does not look where the group is: a move into the parameter's own subtree makes a cycle,
  and no other move does (`Forest.AttachIsForestIff`).
- A move reaches replicas that know the group; a move to the root and a removal from a group reach
  nobody (`Moving.MoveArrivesIff`). Among groups that all know, whenever all is quiet all replicas hang
  in the same group (`Moving.EveryQuietNetHangsTogether`). As with fields, two crossing moves can keep a
  server and a client busy for ever (`Resting.CrossingMovesNeverRest`); with empty channels, nothing but such
  rivals does (`Resting.StopsIffUnrivalled`).
- The end of a text message is checked only if it came in one frame, because the check asks for the opcode of
  the last frame, which is then a continuation: a fragmented text that ends inside a code point is accepted
  (`TextMessages.CutTextPasses`, `TextMessages.EndIsCheckedIff`, `TextMessages.ReceiveText`).
- Whenever server and clients are quiet they agree (`Network.EveryQuietNetAgrees`). Whether they
  become quiet depends on what is set: every receiver flags a value that is new to it. As long as
  nobody gives one field two different values, there are at most (c + 1) * (c + 2) flushes and
  deliveries for each field that changes, c being the number of clients (`Settling.WorkIsBounded`),
  and a lone set ends with everybody holding it (`Settling.LoneSetComesToRest`). With empty channels,
  a system left to itself stops if and only if no two replicas have different values of a field to
  send (`Settling.StopsIffUnrivalled`): two sets that cross, from the very start, can chase each
  other for ever (`Settling.FreshNetNeverRests`). Whatever is under way, one value for each
  field is enough (`ComingToRest.ComesToRest`), but then no longer necessary
  (`ComingToRest.SufficientOnly`).
- The printed form of a uri loses the brackets of an IPv6 host; `Uri.RoundTripIffPlainHost` says
  exactly which hosts survive.

## Model

| member | source | states |
|---|---|---|
| `Streams.StringRoundTripIff` | src/rabbitControl/stream_tools.h:113-126 | a tiny, short or long string is read back, with nothing beyond it consumed, exactly when it is at most 127, 65534 or 2^32-1 octets long |
| `Streams.NegativeLength` | src/rabbitControl/stream_tools.cpp:45-49 | a tiny string of 128 to 254 octets comes back as a negative length, which no reader survives |
| `Streams.PrefixedReadsBack` | src/rabbitControl/stringstreamwriter.cpp:130-135 | a string value with its 32-bit length is what readLongString gives back |
| `Streams.WordReadsBack` | src/rabbitControl/stream_tools.h:94-105 | an integer of any width, written high octet first, is read back and exactly its octets are consumed |
| `Streams.Writer.WriteWord` | src/rabbitControl/stringstreamwriter.cpp:60-115 | the shifted octets appended one by one are the big-endian form of the number |
| `Streams.Writer.WriteString` | src/rabbitControl/writer.h:74-100 | the prefix and the octets of a string, and what a too long string is turned into |
| `Streams.Writer.WritePrefixed` | src/rabbitControl/stringstreamwriter.cpp:130-135 | the 32-bit length and all octets are appended |
| `Streams.InputStream.String` | src/rabbitControl/stream_tools.h:113-126 | the length, then as many octets; short data is padded and ends the stream |
| `Streams.DigitAt` | src/rabbitControl/stringstreamwriter.cpp:74-80 | an octet of the big-endian form is the number shifted right and cut |
| `Options.WriteOption` | src/rabbitControl/parameter_intern.h:787-803 | the write of one optional field: what is appended in each of the cases set, changed and cleared, and which flag stays up |
| `TypeDefinitions.SchemasRoundTripIff` | src/rabbitControl/type_uri.h:182-191 | a schema list joined with blanks and split again is the same list exactly when every schema is non-empty and free of white space |
| `TypeDefinitions.SplitGivesTokens` | src/rabbitControl/type_uri.h:187-190 | whatever string arrives, only non-empty schemas without white space come out |
| `TypeCodec.TypeReadsBack` | src/rabbitControl/type_number.h:90-162 | for every type definition, full or delta, and every suffix: the parse loop gives the options that were written and stops right after the terminator |
| `TypeCodec.NumberReadsBack` | src/rabbitControl/type_number.h:423-540 | the six options of a number survive writing and parsing in any combination |
| `TypeCodec.RangeReadsBack` | src/rabbitControl/type_range.h:87-121 | the nested element options, their terminator and the range default survive writing and parsing |
| `TypeCodec.StrReadsBack` | src/rabbitControl/type_string.h:84-120 | default and regular expression of a string survive writing and parsing |
| `TypeCodec.UriReadsBack` | src/rabbitControl/type_uri.h:147-196 | default, filter and schemas of a uri survive writing and parsing |
| `TypeObjects.NumberDefinition.Write` | src/rabbitControl/type_number.h:423-540 | the object appends exactly the octets of its changed or all options and lowers the flags it must |
| `TypeObjects.NumberDefinition.ParseOptions` | src/rabbitControl/type_number.h:90-162 | the loop over the stream, with its switch, ends as the recursive reading of the same octets does |
| `TypeObjects.NumberDefinition.SetWord` | src/rabbitControl/type_number.h:177-270 | afterwards the option is set to the value, and flagged if it was flagged or held another value; the other options are as they were |
| `TypeObjects.RangeDefinition.Write` | src/rabbitControl/type_range.h:216-245 | the element is written and flushed in place first, then the range default |
| `TypeObjects.RangeDefinition.ParseOptions` | src/rabbitControl/type_range.h:87-121 | the element is parsed in place first, then the range; one of both failing is a failure |
| `TypeObjects.SimpleDefinition.Write` | src/rabbitControl/type_default.h:187-210 | the one option of booleans, colours and addresses, and the terminator |
| `TypeObjects.SimpleDefinition.ParseOptions` | src/rabbitControl/type_default.h:112-140 | the loop that knows one option ends as the recursive reading does |
| `TypeObjects.StringDefinition.Write` | src/rabbitControl/type_string.h:218-255 | default and regular expression are appended and their flags lowered |
| `TypeObjects.StringDefinition.ParseOptions` | src/rabbitControl/type_string.h:84-120 | the loop ends as the recursive reading does |
| `TypeObjects.UriDefinition.Write` | src/rabbitControl/type_uri.h:258-321 | default, filter and joined schemas are appended and their flags lowered |
| `TypeObjects.UriDefinition.ParseOptions` | src/rabbitControl/type_uri.h:147-196 | the loop ends as the recursive reading does, schemas replaced by the split ones |
| `TypeObjects.UriDefinition.AddSchema` | src/rabbitControl/type_uri.h:113-117 | the list ends with the schema, and the next flush sends all of it whatever was sent before; it is read back as that list exactly if the old schemas and the new one are tokens |
| `TypeObjects.JoinSchemas` | src/rabbitControl/type_uri.h:304-306 | a blank after every schema but the last gives the joined string |
| `Userdata.ParamReadsBackIff` | src/rabbitControl/parameter_parser.h:63-123 | for every parameter within the bounds of the format that is written in the long form, full or delta, and every suffix: the parser builds exactly the proxy with the written fields, its parent looked up among the known groups, and leaves the suffix, if and only if no userdata was written |
| `Userdata.UserdataTakesFourMore` | src/rabbitControl/parameter_intern.h:279-286 | a reader that did find the userdata has taken at least four octets of what follows the parameter |
| `ParameterCodec.ShortReadsBack` | src/rabbitControl/parameter_parser.h:47-61 | the short form gives the value back, except that a range is never read |
| `ParameterCodec.LabelReadsBack` | src/rabbitControl/parameter_intern.h:142-177 | a label or description section gives back the text for "any" and all language texts |
| `ParameterCodec.LanguagesRoundTripIff` | src/rabbitControl/parameter_intern.h:708-716 | language texts come back exactly when every code has three octets, none of them zero, and is not "any" |
| `Parameters.NotAfterMeans` | src/rabbitControl/parameter_intern.h:708-716 | language texts go out in the order of their codes: octet by octet as unsigned numbers, a prefix first |
| `ParameterCodec.ParentReads` | src/rabbitControl/parameter_intern.h:230-274 | a parent id becomes the parent only if it is not 0 and names a known group |
| `ParameterCodec.ValueReadsBack` | src/rabbitControl/parameter_intern.h:1063-1079 | every value of every supported type is read back from its octets |
| `ParameterCodec.HeadReads` | src/rabbitControl/parameterfactory.cpp:42-127 | the id and type octets select the type definition that wrote them |
| `Wire.ValueOctets` | src/rabbitControl/stringstreamwriter.cpp:58-100 | a value has 1, 2, 4, 8 or 16 octets by its datatype number, high octet first, a range twice as many; a reader takes exactly that many and fails on fewer |
| `Wire.WidthOf` | src/rabbitControl/types.h:173-200 | 1 octet for the datatypes 16 to 18, 2 for 19 and 20, 4 for 21, 22, 25, 34, 35 and 43, 8 for 23, 24 and 26, 16 for 44 |
| `Wire.EveryWidth` | src/rabbitControl/parameterfactory.cpp:42-127 | the datatypes with such values, and no others, are numbers, colours, addresses and booleans |
| `Wire.Limits` | src/rabbitControl/type_number.h:455-480 | cleared limits: 0 and 256^w - 1 for unsigned numbers of w octets, half of 256^w and half of it minus 1 for signed ones; the smallest normal and the greatest finite pattern of floats |
| `Wire.Groups` | src/rabbitControl/types.h:172-202 | which datatype numbers can be created, that each makes the type of that number, and that groups are those of 40 |
| `Wire.IdOctets` | src/rabbitControl/stringstreamwriter.cpp:60-69 | an id is two octets in two's complement form |
| `Wire.NumberOptionOctets` | src/rabbitControl/type_number.h:423-540 | default, minimum, maximum, multiple, scale and unit go out as 48 to 53 in this order, each word in the octets of the datatype |
| `Wire.TypeOptionOctets` | src/rabbitControl/type_string.h:218-255 | the option numbers of ranges, strings, uris and simple types, the length octets of their texts, and the datatype octets before them |
| `Wire.OptionOctets` | src/rabbitControl/parameter_intern.h:747-902 | value 32, label 33, description 34, tags 35, order 36, parent 37, userdata 39, userid 40, readonly 41, in this order, each with its length octets and what it is cleared with |
| `Wire.LabelOctets` | src/rabbitControl/parameter_intern.h:696-742 | the text for "any" under the letters any, then the language texts, then 0; nothing but a 0 when cleared |
| `Wire.UpdateOctets` | src/rabbitControl/parameter_intern.h:1028-1050 | a value update is 6, id, datatype and value; an update is 4, 18, id, type, options and two terminators |
| `Wire.ShortUpdate` | src/rabbitControl/stringstreamwriter.cpp:60-69 | a 16-bit number with only its value to tell is six octets: 6, the id in two, 19, the value in two |
| `Wire.PacketOctets` | src/rabbitControl/types.h:102-110 | a removal is 5, 18, the id in two octets and 0; the request for everything 2 and 0; the question for the version 1 and 0 |
| `Wire.Bounds` | src/rabbitControl/stream_tools.h:113-126 | what the round trips of type definitions ask for: words that fit, units, filters and schemas of at most 127 octets |
| `Wire.ParameterBounds` | src/rabbitControl/parameter_intern.h:747-902 | what the round trips of parameters ask for: labels, tags and userid of at most 127 octets, descriptions of at most 65534, an order of 32 bits, no userdata |
| `ParameterDelta.DeltaIsSound` | src/rabbitControl/parameter_intern.h:1028-1050 | in setter-only runs a replica that agreed on every unflagged field agrees on all seven after parsing and applying one flush, in either packet form, and the writer keeps its values and has no flag left |
| `ParameterDelta.DeltaArrivesIff` | src/rabbitControl/parameterfactory.cpp:192-205 | a flushed parameter arrives as the fields that were flagged, except exactly a range whose value is the only change |
| `ParameterDelta.DeltaField` | src/rabbitControl/parameter_intern.h:1451-1510 | field by field: what a replica holds after update(), and which flags update() raises |
| `ParameterDelta.FullWriteIsTheParameter` | src/rabbitControl/parameter_intern.h:747-902 | a full write carries the whole parameter: value, type options, languages, options and parent |
| `ParameterDelta.AfterFlush` | src/rabbitControl/parameter_intern.h:747-902 | a flush leaves the whole parameter as it was, parent, userdata, languages and type options included, with no flag up anywhere |
| `ParameterDelta.SetAfterClearArrivesIff` | src/rabbitControl/parameter_intern.h:457-474 | any of the seven fields cleared, flushed, set and flushed: a replica that agreed has the value set, except exactly tags, order, userid or readonly set to the very value that was cleared when that is not the default |
| `ParameterDelta.WhatAClearTells` | src/rabbitControl/parameter_intern.h:1342-1346 | what a replica learns of each clear function: the default for tags, order, userid and readonly, the stored value for a value, nothing for label and description |
| `ParameterDelta.UpdatedKeepsSetterOnly` | src/rabbitControl/parameter_intern.h:1214-1242 | update() never makes a field look cleared |
| `FullDump.DumpArrivesIff` | src/rabbitControl/parameterserver.cpp:221-230 | the packet of a full dump is parsed as the whole parameter exactly when the value is not its only pending change |
| `FullDump.ShortFormIsNotADump` | src/rabbitControl/parameter_intern.h:1028-1036 | with only the value pending the dump is read as something that never holds that value, whatever the value is |
| `ParameterObjects.Parameter.Write` | src/rabbitControl/parameter_intern.h:1028-1050 | the object appends the octets of the short or the long form and lowers exactly the flags that form clears |
| `ParameterObjects.Parameter.WriteOptions` | src/rabbitControl/parameter_intern.h:747-902 | all options in their order, each by its own rule |
| `ParameterObjects.Parameter.ParseOptions` | src/rabbitControl/parameter_intern.h:126-318 | the loop and its switch, with early returns, end as the recursive reading of the octets does |
| `ParameterObjects.Parameter.ReadOption` | src/rabbitControl/parameter_intern.h:141-315 | one option changes one field, or ends the loop, or is undefined |
| `ParameterObjects.Parameter.ReadParent` | src/rabbitControl/parameter_intern.h:230-274 | a parent id that is 0 or unknown changes nothing; the parent already set ends the parse |
| `ParameterObjects.ReadLabelled` | src/rabbitControl/parameter_intern.h:142-177 | the inner loop over codes and texts ends as the recursive reading does |
| `ParameterObjects.WriteLanguages` | src/rabbitControl/parameter_intern.h:708-718 | the loop over the map appends its entries in key order |
| `ParameterObjects.WriteLabelled` | src/rabbitControl/parameter_intern.h:749-784 | a section is written, skipped or written empty, and the shared flag lowered |
| `ParameterObjects.Parameter.Update` | src/rabbitControl/parameter_intern.h:1452-1510 | every field and the parent that the other one has are set, other kinds and other ids are ignored, and setDirty() is called exactly when a value or the parent differs or userdata came |
| `ParameterObjects.Parameter.SetValue` | src/rabbitControl/parameter_intern.h:1083-1094 | afterwards the parameter has the value, flagged if it was flagged or another one was stored; dirty exactly if another one was stored |
| `ParameterObjects.Parameter.SetLabel` | src/rabbitControl/parameter_intern.h:334-346 | the same for the label; the texts by language stay |
| `ParameterObjects.Parameter.SetLanguageLabel` | src/rabbitControl/parameter_intern.h:377-382 | flagged and dirty even if the text was the same, and the next flush brings a reader the texts of all languages with this one changed |
| `ParameterObjects.Parameter.ReadOneValue` | src/rabbitControl/type_range.h:129-133 | the value of any type is taken from the stream, a range as two numbers |
| `ParameterObjects.Parse` | src/rabbitControl/parameter_parser.h:63-123 | the parser with its null results returns a fresh object with exactly the parsed fields |
| `ParameterObjects.ParseValue` | src/rabbitControl/parameter_parser.h:47-61 | a value update gives a fresh object with the value, or null |
| `ParameterObjects.CreateDefinition` | src/rabbitControl/parameterfactory.cpp:42-127 | a datatype octet gives a fresh definition of its type, or null |
| `ParameterObjects.CreateRangeDefinition` | src/rabbitControl/parameterfactory.cpp:225-264 | a number octet gives a fresh range definition, or null |
| `Userdata.PacketReadsBackIff` | src/rabbitControl/packet.h:50-214 | every packet the engine sends, info, initialize, discover, update, remove and value update, with and without time stamp, before every suffix: parsing gives it back and leaves the suffix, if and only if it is no update that carries userdata |
| `Packets.InfoReadsBack` | src/rabbitControl/infodata.h:18-46 | version and application id survive, an empty application id written or not |
| `Packets.ParsePacket` | src/rabbitControl/packet.h:50-214 | parsing ends on every octet string and an accepted packet took at least one octet |
| `PacketObjects.PacketObject.Write` | src/rabbitControl/packet.h:297-326 | the object appends the octets of the packet and flushes the parameter it carries |
| `PacketObjects.ParsePacketObject` | src/rabbitControl/packet.h:50-214 | the loops over the stream accept, reject or have no defined result exactly as the recursive reading does |
| `PacketObjects.ReadInfo` | src/rabbitControl/infodata.h:18-46 | the loop over the info options ends as the recursive reading does |
| `PacketObjects.WriteInfo` | src/rabbitControl/infodata.h:83-96 | version, application id if wanted, terminator |
| `ParameterManager.Manager.GetNextId` | src/rabbitControl/parametermanager.cpp:284-300 | ids are counted as unsigned: the result is 1 to 65534 and was free, every number from 1 below it was in use, and it is 0 exactly when 1 to 65534 all are |
| `ParameterManager.FirstFree` | src/rabbitControl/parametermanager.cpp:286-295 | the first candidate that is free is the lowest free id between 1 and 65534, read as unsigned |
| `ParameterManager.NoneFree` | src/rabbitControl/parametermanager.cpp:286-298 | when no candidate is free, every id from 1 to 65534, read as unsigned, is in use |
| `ParameterManager.SomeIdIsFree` | src/rabbitControl/parametermanager.cpp:286-296 | with fewer than 65534 ids in use one of the candidates is free |
| `ParameterManager.Manager.Create` | src/rabbitControl/parametermanager.cpp:251-264 | the lowest free unsigned id from 1 to 65534, its object under the group, marked dirty; nothing exactly when all of these ids are in use; the tree stays a forest and ids stay the keys of params |
| `ParameterManager.Manager.AddParameterDirect` | src/rabbitControl/parametermanager.cpp:374-388 | the reserved id becomes a child of its group and a key of params, marked dirty unless it is being removed |
| `ParameterManager.Manager.AddParameter` | src/rabbitControl/parametermanager.cpp:308-338 | the client enters a parsed parameter under its parent, or by itself, and marks nothing dirty |
| `ParameterManager.Manager.RemoveParameter` | src/rabbitControl/parametermanager.cpp:52-65 | exactly the subtree leaves params, ids and the tree, every other link stays, and only the id itself is recorded as removed |
| `ParameterManager.Manager.RemoveParameterDirect` | src/rabbitControl/parametermanager.cpp:67-92 | the recursion takes down exactly the subtree, however deep, and ends |
| `ParameterManager.Manager.RemoveChildrenDirect` | src/rabbitControl/parametermanager.cpp:86-91 | the loop over the children takes down the subtree of each and nothing else |
| `ParameterManager.Manager.SetParameterDirty` | src/rabbitControl/parametermanager.cpp:391-406 | an id being removed is not entered |
| `ParameterManager.Manager.SetParameterRemoved` | src/rabbitControl/parametermanager.cpp:408-423 | the id moves from the dirty to the removed map |
| `ParameterManager.Manager.AddChild` | src/rabbitControl/parameter_group.cpp:45-54 | the child is among the children of the group, out of its old one, and dirty if it moved; the records are a tree again if and only if the group is not at or below the child |
| `ParameterManager.Manager.RemoveChild` | src/rabbitControl/parameter_group.cpp:56-64 | both ends of the link are cut, only if there was one |
| `ParameterManager.Manager.Flush` | src/rabbitControl/parameterserver.cpp:178-201 | all removals in id order, then all updates in id order, and both maps empty |
| `ParameterManager.FlushOrder` | src/rabbitControl/parameterserver.cpp:178-201 | each removed id is sent once and before any update, each dirty id once, and no id of the same flush is both |
| `ParameterManager.RemovalLeavesOrphans` | src/rabbitControl/parametermanager.cpp:86-91 | after a removal the dirty map holds everything that was below the removed parameter, so updates for it follow unless it had no children |
| `Forest.Removal` | src/rabbitControl/parametermanager.cpp:79-91 | detaching a node, taking down its children and dropping it is the removal of its subtree |
| `Forest.WithoutIsForest` | src/rabbitControl/parametermanager.cpp:67-92 | what a removal leaves is again a forest |
| `Forest.AttachIsForest` | src/rabbitControl/parameter_intern.h:1518-1534 | hanging a parameter under a group that is not below it keeps the forest |
| `Forest.AttachIsForestIff` | src/rabbitControl/parameter_group.cpp:45-54 | a move of a parameter to another group leaves a forest exactly when that group is not the parameter itself and not below it; the code does not look |
| `Forest.AttachShape` | src/rabbitControl/parameter_intern.h:1518-1534 | node by node: the moved one has its new parent, the new group one child more, everybody else one less if it had it |
| `Forest.SiblingsAreApart` | src/rabbitControl/parametermanager.cpp:88-90 | the subtrees of two children have nothing in common |
| `Initialisation.InitialiseRebuildsTheTree` | src/rabbitControl/parameterserver.cpp:221-249 | an empty client that applies the packets of INITIALIZE in order ends with the same ids, options, values, groups and children, and the same parents except for the root |
| `Initialisation.InitialiseListsTheTree` | src/rabbitControl/parameterserver.cpp:221-249 | everything below the root is sent once, each group before its children |
| `Initialisation.DumpIsDump` | src/rabbitControl/parameterserver.cpp:221-241 | the recursion lists a parameter and its subtree once, in pre-order |
| `Initialisation.FullPacketIsTheCopy` | src/rabbitControl/parameterclient.cpp:172-206 | one full packet adds the copy of its parameter under the group the client knows |
| `Endpoints.Endpoint.SendParameterFull` | src/rabbitControl/parameterserver.cpp:221-241 | the recursive method sends exactly the pre-order packets of the subtree and leaves the flags a full write leaves |
| `Endpoints.Endpoint.Init` | src/rabbitControl/parameterserver.cpp:244-249 | the packets for everything below the root, in that order |
| `Sessions.Initialise` | src/rabbitControl/parameterclient.cpp:87-97 | a client object that sends INITIALIZE to a server object and receives every packet of the answer ends with a copy of all that hangs in the tree and nothing to send; the server keeps tree and dirty map |
| `Endpoints.ReceivedAsClient` | src/rabbitControl/parameterclient.cpp:172-206 | being told of an unknown parameter, the client object does what the replay of a dump does |
| `Endpoints.KnownAsClient` | src/rabbitControl/parameterclient.cpp:172-206 | a known parameter is updated by a client as the replay updates it, moves apart |
| `Endpoints.NewParamIsReady` | src/rabbitControl/parametermanager.cpp:374-388 | a parameter as the server creates it can be dumped |
| `Endpoints.Endpoint.Create` | src/rabbitControl/parametermanager.cpp:374-388 | the new object has the id, the type, the label and the group it was given, label and group flagged, every other field unset; it is the only change to the cache; or the ids are used up and nothing changes |
| `Convergence.EveryQuietStateAgrees` | src/rabbitControl/parameterserver.cpp:74-124 | in every run of sets, flushes, deliveries and forwards, for any number of clients: whenever all channels are empty and nothing is flagged, all replicas agree |
| `Convergence.InvariantIsKept` | src/rabbitControl/parameterclient.cpp:172-206 | each step keeps: an unflagged end stands by the last value it has in flight, and with nothing under way both ends agree |
| `Convergence.LoneSetPrevails` | src/rabbitControl/parameterserver.cpp:251-288 | a set that no other set of the field rivals is not undone by echoes or older values, whatever happens to other fields: when all is quiet every replica has it |
| `ComingToRest.WorkIsBounded` | src/rabbitControl/parameterserver.cpp:169-218 | from agreement, sets and steps interleaved in any way and no field given two values: at most (n + 1) * (n + 2) flushes and deliveries for each field that changes |
| `ComingToRest.StopsIffUnrivalled` | src/rabbitControl/parameterclient.cpp:43-84 | with empty channels, any number of clients and fields: every way of going on is bounded if and only if no two replicas have different values of a field to send |
| `ComingToRest.ComesToRest` | src/rabbitControl/parameterserver.cpp:74-124 | whatever is flagged or under way, if it is one value per field, every run without a set is bounded by an explicit count |
| `ComingToRest.SufficientOnly` | src/rabbitControl/parameterclient.cpp:172-206 | with two values of a field on one channel a system can still come to rest: the first may be no news to its receiver |
| `ComingToRest.StepLowers` | src/rabbitControl/parameterclient.cpp:172-206 | each flush and each delivery strictly lowers that count |
| `ComingToRest.LoneSetComesToRest` | src/rabbitControl/parameterserver.cpp:169-218 | one set from agreement: at most (n + 1) * (n + 2) steps, then every replica has the new value and nothing else has changed |
| `ComingToRest.CrossedNeverRests` | src/rabbitControl/parameterclient.cpp:43-84 | a server and a client that both have a value of the same field to send exchange them for ever |
| `ComingToRest.QuiescentIffNothingToDo` | src/rabbitControl/parameterserver.cpp:169-218 | nothing is left to do exactly when all channels are empty and nothing is flagged |
| `Network.EveryQuietNetAgrees` | src/rabbitControl/parameterserver.cpp:74-124 | the same for packets as octets, written, forwarded, parsed and applied by the modelled code, for all seven fields |
| `Network.LoneSetReachesAll` | src/rabbitControl/parameterserver.cpp:169-218 | a set without a rival, whatever happens to other fields: when all is quiet every replica has it |
| `Network.FreshNetIsGood` | src/rabbitControl/parameterfactory.cpp:42-127 | server and clients with a parameter as it is made, of any type but range, satisfy what these results ask |
| `Settling.WorkIsBounded` | src/rabbitControl/parameterserver.cpp:169-218 | the bound on flushes and deliveries for runs on octets, with the dirty map deciding who flushes |
| `Settling.StopsIffUnrivalled` | src/rabbitControl/parameterclient.cpp:43-84 | exactly when a server and its clients, left to themselves with empty channels, stop |
| `Settling.LoneSetComesToRest` | src/rabbitControl/parameterserver.cpp:169-218 | one set while all is quiet: at most (c + 1) * (c + 2) steps, then all is quiet, every replica has the new value and no other field has changed |
| `Settling.CrossingSetsNeverRest` | src/rabbitControl/parameterserver.cpp:74-124 | from any quiet agreement, two sets of different new values by the server and a client: runs of any length without another set in which the network is never quiet |
| `Settling.FreshNetNeverRests` | src/rabbitControl/parameterserver.cpp:74-124 | such runs start from parameters as they are made |
| `Settling.StepKeepsSettled` | src/rabbitControl/parameter_intern.h:1452-1510 | without a move of a parent pending, the dirty map holds a parameter only for a flagged field, after every step |
| `Joining.DumpKeepsPendingIff` | src/rabbitControl/parameterserver.cpp:221-230 | a dump keeps all that the server has to send if and only if the value is not the only pending change; its values and its invariant it always keeps |
| `Joining.JoinerIsGood` | src/rabbitControl/parameterclient.cpp:172-206 | the copy that a joining client takes satisfies the invariant, agrees with the server and has nothing to send |
| `Joining.EveryQuietLiveNetAgrees` | src/rabbitControl/parameterserver.cpp:244-249 | runs in which clients join and INITIALIZE is answered at any time, but never while the value is the only pending change: whenever all is quiet, all agree |
| `Joining.DumpThenFlushIff` | src/rabbitControl/parameterserver.cpp:221-230 | dumped and then flushed: a replica that lacked only what is flagged has everything, except exactly when the value was the only pending change and differs |
| `Joining.AnAnswerLosesTheValue` | src/rabbitControl/parameter_intern.h:1028-1036 | a run with one such dump that ends quiet and without agreement |
| `Moving.MoveArrivesIff` | src/rabbitControl/parameter_intern.h:1486-1490 | one flush heard: the replica hangs where the writer does exactly if it did before, or if the move was pending and its group is known to it and is not the root; a removal from a group is never heard |
| `Moving.EveryQuietNetHangsTogether` | src/rabbitControl/parameter_group.cpp:45-54 | runs of sets, moves among groups that everybody knows, flushes, deliveries and forwards, with the packets as octets: whenever all is quiet, all replicas agree on all seven fields and hang in the same group |
| `Moving.LoneMoveReachesAll` | src/rabbitControl/parameter_intern.h:1486-1490 | a move that no other move rivals, whatever else is set meanwhile: when all is quiet every replica hangs in that group |
| `Moving.EventKeeps` | src/rabbitControl/parameterserver.cpp:74-124 | every move and every step on octets is one step, or none, of the abstract protocol with the parent as its only field, and keeps the invariant of the other fields |
| `Moving.FreshNetIsHoused` | src/rabbitControl/parameterfactory.cpp:42-127 | server and clients with a parameter as it is made, all knowing the groups, satisfy what these results ask |
| `Resting.StopsIffUnrivalled` | src/rabbitControl/parameterclient.cpp:43-84 | with moves among groups that everybody knows: exactly when a server and its clients, left to themselves with empty channels, stop; no two of them have different values of a field, or different groups, to send |
| `Resting.WorkIsBounded` | src/rabbitControl/parameterserver.cpp:169-218 | runs of sets, moves, flushes, deliveries and forwards that set no field to two values and move the parameter to no two groups: at most (c + 1) * (c + 2) flushes and deliveries for each field that changes and for the move |
| `Resting.LoneMoveComesToRest` | src/rabbitControl/parameter_group.cpp:45-54 | one move while all is quiet: at most (c + 1) * (c + 2) steps, then all is quiet, every replica hangs in the group and no field has changed |
| `Resting.CrossingMovesNeverRest` | src/rabbitControl/parameterserver.cpp:74-124 | from any quiet agreement, two moves to different groups by the server and a client: no bound on the flushes and deliveries that follow |
| `Resting.EventIsStep` | src/rabbitControl/parameterserver.cpp:74-124 | every set, move, flush and delivery on octets is one step of the abstract protocol with the seven fields and the parent |
| `Resting.EventKeepsTidy` | src/rabbitControl/parameter_intern.h:1451-1510 | the dirty map holds a parameter only for a flagged field or a pending move, after every one of these |
| `Network.StepRefines` | src/rabbitControl/parameterserver.cpp:74-124 | every step on octets, with update() applying fields and parent and entering the dirty map, is the same step of the abstract protocol |
| `Network.RangeValueIsLost` | src/rabbitControl/parameterfactory.cpp:192-205 | a flush of a range whose value is the only change is dropped by every receiver |
| `Synchronisation.HearingIsLearning` | src/rabbitControl/parameter_intern.h:1214-1242 | receiving a flushed packet is taking over the flagged values and flagging those that differed |
| `Synchronisation.MessageMeans` | src/rabbitControl/parameterserver.cpp:188-201 | a flushed packet says exactly the flagged fields and their values, whoever reads it |
| `Endpoints.Endpoint.Update` | src/rabbitControl/parameterserver.cpp:169-207 | one REMOVE for each removed, one UPDATE or UPDATEVALUE for each dirty parameter, from the values at the call; flags down, maps empty |
| `Endpoints.Endpoint.ServerReceived` | src/rabbitControl/parameterserver.cpp:74-124 | for each command the whole new state: cache, tree, dirty map; what is answered; that every parameter packet is forwarded, known or not; a rejected packet changes nothing; to the octets 1 and 0 the answer is, octet by octet, version 0.1.0 and the application id and then the same question, and it is read as that |
| `Endpoints.Endpoint.ClientReceived` | src/rabbitControl/parameterclient.cpp:104-171 | for each command the whole new state: known parameters updated, moved and entered in the dirty map, unknown ones added, removed ones taken down with their subtree, everything else nothing; to the octets 1 and 0 the answer is, octet by octet, version 0.1.0 and the application id, and it is read as that |
| `Endpoints.InfoIsAsked` | src/rabbitControl/parameterclient.cpp:88-92 | the octets 1 and 0 ask for the version, and with application ids of at most 127 octets the answer is read back as version 0.1.0 and that id, with whatever follows left over |
| `Endpoints.ReceivesAsReplica` | src/rabbitControl/parameterserver.cpp:88-110 | what both endpoints do with an update of a known parameter is the delivery step of the runs in Network |
| `Endpoints.UpdatesAsReplica` | src/rabbitControl/parameterserver.cpp:169-207 | what update() does with a dirty parameter is the flush step of the runs in Network, and with another one nothing |
| `Endpoints.SetsAsReplica` | src/rabbitControl/parameter_intern.h:1083-1094 | what a setter does is the set step of the runs in Network |
| `Endpoints.Endpoint.Apply` | src/rabbitControl/parameter_intern.h:1451-1510 | the fields, the move to another group, whether the parameter becomes dirty, and that the tree is lost exactly when the group is at or below the parameter |
| `Endpoints.Endpoint.SetField` | src/rabbitControl/parameter_intern.h:1083-1094 | a setter on a parameter of an endpoint, with any value of the type: the field is there and flagged, every other field, the other parameters and the tree are as they were, and the parameter is dirty exactly if another value was stored and it is not being removed |
| `Endpoints.Endpoint.Remove` | src/rabbitControl/parametermanager.cpp:52-92 | the subtree leaves the tree, its objects lose their parents, only the removed one is recorded, and exactly those that hung somewhere become dirty; an unknown id changes nothing |
| `Endpoints.Endpoint.Drop` | src/rabbitControl/parameterclient.cpp:208-243 | the client takes the subtree down and records nothing as removed |
| `Endpoints.Endpoint.Add` | src/rabbitControl/parametermanager.cpp:308-338 | the parsed parameter becomes the cached one, in the tree under its parent |
| `Endpoints.OrphanComesBack` | src/rabbitControl/parameterclient.cpp:190-199 | the update that follows a removal adds the removed descendant again on every client, without a parent |
| `Echoes.EchoOfARemoval` | src/rabbitControl/parameterclient.cpp:208-243 | a removal heard by all: the next update() of one client tells of everything it dropped that hung under a group, the server passes that on and stays as it is, and another client has exactly these again, each by itself and without a parent, and nothing to send; the removed parameter is among them if and only if it had a parent at the client that told |
| `Echoes.DropAndTell` | src/rabbitControl/parameterclient.cpp:43-84 | the client drops the subtree of a REMOVE, and its next update() is one packet, in id order, for each dropped parameter that hung somewhere |
| `Echoes.OrphanBrings` | src/rabbitControl/parameter_intern.h:646-650 | such a packet brings, to whoever reads it, the same parameter with what was pending and without a parent |
| `Endpoints.BroughtParentIsKnown` | src/rabbitControl/parameter_intern.h:237-260 | whatever octets arrive, a parsed parent is a group the manager knows |
| `FrameMasking.StreamingIsOneMask` | libs/websocketpp/frame.hpp:768-789 | for every cut of a payload into pieces, each masked by the word or the byte version with the key the last call returned, the result is one mask over the whole (section 5.3 of RFC 6455) |
| `FrameMasking.PreparedStream` | libs/websocketpp/frame.hpp:595-604 | the same from the prepared key, starting at offset 0 |
| `FrameMasking.PreparedHolds` | libs/websocketpp/frame.hpp:595-604 | a prepared key holds the key four-periodically in memory, on either byte order and both word sizes |
| `FrameMasking.ShiftsCompose` | libs/websocketpp/frame.hpp:612-623 | two rotations are one by the sum modulo the word size |
| `FrameMasking.ShiftAdvances` | libs/websocketpp/frame.hpp:612-623 | a rotation moves the key on by as many octets, and keeps its period |
| `FrameMasking.MaskingIsAnInvolution` | libs/websocketpp/frame.hpp:645-655 | masking twice with the same key restores the payload |
| `FrameMasking.WordMaskExact` | libs/websocketpp/frame.hpp:702-717 | word by word with a partial last word equals octet by octet from offset 0, for every length |
| `FrameMasking.WordMaskCirc` | libs/websocketpp/frame.hpp:768-789 | the output is the periodic mask and the returned key the one for the next call |
| `FrameMasking.ByteMaskCirc` | libs/websocketpp/frame.hpp:830-841 | the same an octet at a time |
| `FrameMasking.ByteMask` | libs/websocketpp/frame.hpp:645-655 | octet i of the output is octet i of the input xor octet i mod 4 of the key |
| `FrameHeader.HeaderRoundTrip` | libs/websocketpp/frame.hpp:445-585 | for every opcode, flag combination, key and size below 2^64 each getter gives the request back from the octets on the wire, whatever follows them, and the header length is the computed one |
| `FrameHeader.OctetsOf` | libs/websocketpp/frame.hpp:321-433 | the getters mean the layout of section 5.2 of RFC 6455, and no other two octets have the same fields |
| `FrameHeader.BasicHeader.SetFin` | libs/websocketpp/frame.hpp:330-332 | of all the fields that the getters show, the fin bit alone is changed, and is the argument |
| `FrameHeader.BasicHeader.SetRsv1` | libs/websocketpp/frame.hpp:348-350 | of all the fields that the getters show, the rsv1 bit alone is changed, and is the argument |
| `FrameHeader.BasicHeader.SetRsv2` | libs/websocketpp/frame.hpp:366-368 | of all the fields that the getters show, the rsv2 bit alone is changed, and is the argument |
| `FrameHeader.BasicHeader.SetRsv3` | libs/websocketpp/frame.hpp:384-386 | of all the fields that the getters show, the rsv3 bit alone is changed, and is the argument |
| `FrameHeader.BasicHeader.SetMasked` | libs/websocketpp/frame.hpp:411-413 | of all the fields that the getters show, the mask bit alone is changed, and is the argument |
| `FrameHeader.LengthFormIsMinimal` | libs/websocketpp/frame.hpp:200-215 | no header for the same size is shorter (section 5.2 of RFC 6455) |
| `FrameHeader.SizeReadsBack` | libs/websocketpp/frame.hpp:573-585 | the size is read back from its 7, 16 or 64 bit form |
| `FrameHeader.AnnouncedSize` | libs/websocketpp/frame.hpp:215-223 | on the wire the second octet is the mask bit and the size up to 125, else 126 with the size in two octets or 127 with eight, high octet first, and the key comes last |
| `FrameHeader.ReadSize` | libs/websocketpp/frame.hpp:573-585 | low bits of 126 mean the number in the next two octets, 127 the one in the next eight, less the size itself; the key stands behind these octets |
| `FrameHeader.WriteHeader` | libs/websocketpp/frame.hpp:489-500 | both structures built and serialised are the octets that RFC 6455 lays out for the request: the second has 128 for a key and the size up to 125, else 126 with two octets of size or 127 with eight |
| `FrameHeader.PrepareHeader` | libs/websocketpp/frame.hpp:489-500 | as many octets as the header length: the two fixed ones, the size octets behind them, the masking key at the end if there is one |
| `Utf8Validator.AcceptsExactlyTheGrammar` | libs/websocketpp/utf8_validator.hpp:45-78 | from the start state the automaton ends in accept exactly on the concatenations of well-formed sequences of section 4 of RFC 3629 |
| `Utf8Validator.EmittedIsTheDecoding` | libs/websocketpp/utf8_validator.hpp:69-78 | a list of code points is what the accepting decoder shows if and only if it is a list of scalar values that encodes to the input |
| `Utf8Validator.RejectsExactlyTheHopeless` | libs/websocketpp/utf8_validator.hpp:91-118 | the reject state is entered exactly when no continuation is valid |
| `Utf8Validator.RunConcat` | libs/websocketpp/utf8_validator.hpp:105-117 | splitting the input over several calls changes neither the state nor the code points |
| `Utf8Validator.CharIffEncoding` | libs/websocketpp/utf8_validator.hpp:45-62 | the grammar of one sequence and the encoding of one scalar value are the same set |
| `Utf8Validator.TableKind` | libs/websocketpp/utf8_validator.hpp:45-62 | the byte half of the table is the classification by ranges |
| `Utf8Validator.LeadBitsAre` | libs/websocketpp/utf8_validator.hpp:72-74 | of the first octet of a sequence the low 8 - kind bits go into the code point |
| `Utf8Validator.TableNext` | libs/websocketpp/utf8_validator.hpp:45-62 | the state half of the table is the transition function |
| `Utf8Validator.DecodeByte` | libs/websocketpp/utf8_validator.hpp:69-78 | one call is one step of the automaton, every index in range |
| `Utf8Validator.Validator.Decode` | libs/websocketpp/utf8_validator.hpp:104-118 | the loop stops with false at the first reject and otherwise has run over all octets |
| `Utf8Validator.Validator.Consume` | libs/websocketpp/utf8_validator.hpp:91-96 | octet by octet: false exactly at the octet after which no continuation is valid |
| `Utf8Validator.Validator.Reset` | libs/websocketpp/utf8_validator.hpp:128-132 | whatever was read before, exactly well-formed UTF-8 is accepted from there on |
| `Utf8Validator.Validate` | libs/websocketpp/utf8_validator.hpp:143-149 | true exactly for well-formed UTF-8 |
| `TextMessages.ReceiveText` | libs/websocketpp/processors/hybi13.hpp:388-505 | a text message of any frames, each with its own key, in pieces of any size: accepted exactly if every frame is masked for a server and none for a client, every frame after the first has opcode 0, and the text that was masked is well-formed UTF-8, if it came in one frame, or could have gone on to be well-formed, if it came in more |
| `TextMessages.HeadersDemand` | libs/websocketpp/processors/hybi13.hpp:891-912 | headers pass exactly if every frame is masked for a server and none for a client, and every frame after the first has opcode 0 |
| `TextMessages.RefusedHeaders` | libs/websocketpp/processors/hybi13.hpp:897-910 | an unmasked frame to a server, a masked one to a client and a second text frame within a message are each refused |
| `TextMessages.Opcodes` | libs/websocketpp/processors/hybi13.hpp:866-912 | a message begins with opcode 1 or 2 and goes on with 0; opcodes from 8 on are no part of it |
| `TextMessages.TextMessage.ProcessPayloadBytes` | libs/websocketpp/processors/hybi13.hpp:798-835 | the buffer is unmasked from where the frame stands, appended to the payload, and refused exactly when no continuation could make the payload well-formed |
| `TextMessages.TextMessage.NextFrame` | libs/websocketpp/processors/hybi13.hpp:462-469 | a further frame starts its own key and leaves payload and validator as they are |
| `TextMessages.TextMessage.FinalizeMessage` | libs/websocketpp/processors/hybi13.hpp:517-548 | false exactly if the header read last has the opcode for text and the payload is not well-formed |
| `TextMessages.EndIsCheckedIff` | libs/websocketpp/processors/hybi13.hpp:536-541 | of text messages in so many frames only well-formed ones are accepted, exactly if it is one frame |
| `TextMessages.CutTextPasses` | libs/websocketpp/processors/hybi13.hpp:536-541 | the input: "a" in a frame of text and half a code point in the last continuation is accepted |
| `TextMessages.SentIsReceived` | libs/websocketpp/processors/hybi13.hpp:798-835 | what comes out is the text that the sender cut into frames and masked, however the frames are cut into pieces |
| `Uri.RoundTripIffPlainHost` | libs/websocketpp/uri.hpp:274-285 | a valid uri parses back from its printed form to the same fields exactly when its host has no colon or slash and does not begin with a bracket |
| `Uri.PlainRoundTrip` | libs/websocketpp/uri.hpp:274-285 | scheme, host, port, resource and secure flag come back, a default port left out and restored |
| `Uri.SchemesAndPorts` | libs/websocketpp/uri.hpp:60-79 | without a port, ws and http mean 80 and are plain, wss and https mean 443 and are secure |
| `Uri.UnbracketedIsPlain` | libs/websocketpp/uri.hpp:84-147 | a host that was parsed without brackets is always such a host |
| `Uri.PortOfDecimal` | libs/websocketpp/uri.hpp:321-341 | every port is read back from its decimal form |
| `Uri.Signs` | libs/websocketpp/uri.hpp:330 | blanks and a plus sign before the digits of a port change nothing, and a negative number counts modulo 2^32 |
| `Uri.Uri.constructor` | libs/websocketpp/uri.hpp:51-168 | the state machine over the characters fills the fields the specification gives, or is invalid |
| `Uri.Uri.Str` | libs/websocketpp/uri.hpp:274-285 | scheme, host, the port unless it is the default one, resource |

## Left out

- Sockets, TLS, timers, threads and the endpoint classes of the WebSocket library; the openFrameworks glue and examples.
- Of the frame processor only how a text message is unmasked and validated (`TextMessages`): not its handshake, the copying of header octets, control frames between those of the message, the extension bits, the size limit and compression.
- Locks: a flush and the handling of one packet are each one step, and a setter never runs inside a flush.
- The early returns of `update()` without any transporter or connection; with several transporters, the clients of all of them are one list.
- Enum parameters: their entry list is written with a 16-bit count and read until an empty string. An enum octet gives no defined result here.
- ParameterCodec.ShortReadsBack, Synchronisation, Network, Settling and Joining: for parameters without userdata, which the code writes without the length that its parser reads; `Userdata.PacketReadsBackIff` has the exact condition.
- Custom, vector, array, list, image and widget types, which the code does not read either; a widget option is skipped as in the code.
- Clear functions, language labels, type options and moves to the root in delta updates: `update()` does not carry them.
- Moves to another group are part of every step (`ParameterDelta.Applied`), but the parent is not among the seven fields that `Convergence`, `Network` and `Settling` compare; `Moving` follows it, for moves among groups that every replica knows, because no other move is heard by all.
- Moving.EveryQuietNetHangsTogether: follows the one parameter that moves; whether the group lies below it is `Forest.AttachIsForestIff` and `Endpoints.Endpoint.Apply`.
- Echoes.EchoOfARemoval: the client that tells has nothing else to send, and nothing that it dropped holds more than the wire format can carry.
- Settling.StopsIffUnrivalled, Settling.WorkIsBounded and Settling.LoneSetComesToRest: with no move of a parent pending; `Resting` has them with moves among groups that every replica knows.
- Joining.EveryQuietLiveNetAgrees: a client that joins hears the answer to its INITIALIZE before anything else; an update that reaches it first is added with the flagged fields only, as `Endpoints.ReceivedAsClient` has it.
- ParameterObjects.Parameter.ReadParent: a second parent option in one packet with another id also removes the parameter from the children of the first group; that effect on the tree is not modelled.
- ParameterManager.Manager.AddParameter: asks that a parsed parameter does not have the id 0, under which the tree keeps the root group.
- Endpoints.Endpoint.Add: asks the same.
- Endpoints.Endpoint.ClientReceived: asks the same of a parameter that the packet brings.
- Reuse of an id between its removal and the next flush, when the dirty map still refers to the old object; several references to one object are one object here, found by its id.
- The meaning of floating-point numbers: they are opaque words, compared as words.
- A boolean octet other than 0 and 1 is a word like any other as a value, and true as the read-only option.
- Callbacks, `dump`, logging, the debugging `StreamWriter`, and `semver`.
- Constructors of type definitions and parameters with an initial value, and the getters.
- The uninitialised default of an address type is taken as zero.
- Network.EveryQuietNetAgrees: not for ranges, and for fields within the bounds of the wire format that are only set, because the code breaks the promise outside of these.
- Initialisation.InitialiseRebuildsTheTree: for parameters only touched by setters, none of them with its value as the only pending change, because the code breaks the promise otherwise; parameters that hang under no group are not sent by the code.
- Big-endian hosts for the RabbitControl format; the WebSocket masking is modelled for both byte orders.
- Query strings, authority strings and the constructors of `uri` from parts.
