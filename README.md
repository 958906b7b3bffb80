# cisst multi-task interface registry, in Dafny

This project models the bookkeeping core of the cisst multi-task middleware and proves
properties of it:

- **Component interface registry** (`component.dfy`, module `Components`). A component keeps
  one name-keyed map shared by its provided and output interfaces, one shared by its required
  and input interfaces, and four lists (provided, output, required, input) in the order the
  interfaces were added. Adding inserts into a map and, only on success, appends to the matching
  list; removing takes the name out of the map and the interface out of its list; connecting
  resolves a required or input interface by name and delegates to it; mailbox processing sums
  per-interface counts; `ToGraphFormat` writes a one-line graph description. The invariant
  `Component.Valid` (each interface object registered under one name; each list holds exactly
  the registered interfaces of its kind, once each) is kept by every operation, except that
  `AddInterfaceOutputExisting`, `AddInterfaceRequiredExisting` and `AddInterfaceInputExisting`
  keep it only for an interface object not already registered: like the C++, they accept an
  object registered under another name, and the lists then hold it twice.
- **Required-interface slot binding** (`required_interface.dfy`, module `RequiredInterfaces`).
  Four name→slot maps, one per command signature (void, read, write, qualified read); a slot
  writes the bound command through the caller's pointer and accepts a missing command only when
  it is optional; event handlers are added directly or wrapped in a queued command, and a queued
  wrap needs a mailbox.
- **Multicast void command** (`multicast_command_void.dfy`, module `MulticastCommands`): a
  named composite that appends member commands and executes each of them once, in order.
- **Command-line option registry** (`command_line_options.dfy`, module `CommandLineOptions`):
  options with a short and a long name, registered without their leading dashes and refused
  when either name is taken; a parse over `argv` that records which options were given and the
  value of each one-value option; `IsSet` by any spelling of a name.

Shared pieces: `wrappers.dfy` (`Option`), `sequences.dfy` (first index, erase-first, sums over a
list), `named_maps.dfy` (the iteration order of a `std::map` keyed by `std::string`, i.e.
ascending lexicographic order, and the effect of adding or removing a name on a map whose values
are distinct), `commands.dfy` (a command object with an enabled flag, its kind — a direct call,
or a queued void/write wrapper around another command — and the return codes).

The kinds of interface that C++ tells apart with `dynamic_cast` are a `Kind` tag on the
interface object. A null pointer is `null` (for class references) or `None`. Counts that come
from code outside the model (each interface's own mailbox processing, each member command's own
result) are parameters: `processed: I -> nat`, `results: Command -> ReturnType`.

## Model

| member | source | states |
|---|---|---|
| Components.CreationPolicy | branches/main/libs/code/cisstMultiTask/mtsComponent.cpp:138-147 | a new provided interface never carries the component policy, and is queued exactly when queuing was asked for |
| Components.InterfaceRequiredOrInput.ConnectTo | branches/main/libs/code/cisstMultiTask/mtsComponent.cpp:552 | records the connected interface and reports success |
| Components.InterfaceProvidedOrOutput.constructor | branches/main/libs/code/cisstMultiTask/mtsComponent.cpp:141-146 | a new provided interface carries the given name, kind and queuing policy |
| Components.InterfaceRequiredOrInput.constructor | branches/main/libs/code/cisstMultiTask/mtsComponent.cpp:445 | a new required interface carries the given name, mailbox and required flag and is not connected |
| Components.Component.constructor | branches/main/libs/code/cisstMultiTask/mtsComponent.cpp:30-40 | a new component has its name, empty maps and lists, and satisfies Valid |
| Components.Component.SetName | branches/main/libs/code/cisstMultiTask/mtsComponent.cpp:81-84 | renames the component and leaves its interfaces and Valid untouched |
| Components.Component.GetInterfaceProvidedOrOutput | branches/main/libs/code/cisstMultiTask/mtsComponent.cpp:173-178 | the interface registered under the name, null exactly when there is none |
| Components.Component.GetInterfaceProvided | branches/main/libs/code/cisstMultiTask/mtsComponent.cpp:181-186 | non-null exactly when the name is registered to a provided interface, and then that interface |
| Components.Component.GetInterfaceOutput | branches/main/libs/code/cisstMultiTask/mtsComponent.cpp:189-194 | non-null exactly when the name is registered to an output interface, and then that interface |
| Components.Component.GetInterfaceRequiredOrInput | branches/main/libs/code/cisstMultiTask/mtsComponent.cpp:311-316 | the required or input interface registered under the name, null exactly when there is none |
| Components.Component.GetInterfaceRequired | branches/main/libs/code/cisstMultiTask/mtsComponent.cpp:319-324 | non-null exactly when the name is registered to a required interface, and then that interface |
| Components.Component.GetInterfaceInput | branches/main/libs/code/cisstMultiTask/mtsComponent.cpp:327-332 | non-null exactly when the name is registered to an input interface, and then that interface |
| Components.NumbersCountRegisteredInterfaces | branches/main/libs/code/cisstMultiTask/mtsComponent.cpp:197-206 | under Valid, each GetNumberOf count equals the number of distinct registered interfaces of that kind |
| Components.Component.GetNamesOfInterfacesProvidedOrOutput | branches/main/libs/code/cisstMultiTask/mtsComponent.cpp:101-104 | the registered provided/output names, each once, in ascending (map) order |
| Components.Component.GetNamesOfInterfacesProvided | branches/main/libs/code/cisstMultiTask/mtsComponent.cpp:107-118 | one name per provided interface, in list order, each the interface's own name |
| Components.Component.GetNamesOfInterfacesOutput | branches/main/libs/code/cisstMultiTask/mtsComponent.cpp:121-132 | one name per output interface, in list order, each the interface's own name |
| Components.Component.GetNamesOfInterfacesRequiredOrInput | branches/main/libs/code/cisstMultiTask/mtsComponent.cpp:506-508 | the registered required/input names, each once, in ascending (map) order |
| Components.Component.GetNamesOfInterfacesRequired | branches/main/libs/code/cisstMultiTask/mtsComponent.cpp:511-522 | one name per required interface, in list order, each the interface's own name |
| Components.Component.GetNamesOfInterfacesInput | branches/main/libs/code/cisstMultiTask/mtsComponent.cpp:525-536 | one name per input interface, in list order, each the interface's own name |
| Components.NamesInOrder | branches/main/libs/code/cisstMultiTask/mtsComponent.cpp:107-118 | the push_back loop over a list (used by all four list-name getters) collects exactly one name per element, in list order |
| Components.Component.AddInterfaceProvided | branches/main/libs/code/cisstMultiTask/mtsComponent.cpp:135-161 | null and no change exactly when the name is taken in the provided/output map; otherwise a fresh provided interface with CreationPolicy, registered under the name and appended to the provided list; Valid kept; the required/input side untouched |
| Components.Component.AddInterfaceOutput | branches/main/libs/code/cisstMultiTask/mtsComponent.cpp:164-170 | the base component always returns null |
| Components.Component.AddInterfaceOutputExisting | branches/main/libs/code/cisstMultiTask/mtsComponent.cpp:493-503 | null and no change exactly when the name is taken; otherwise registers the given interface and appends it to the output list; Valid kept for an interface not yet registered |
| Components.Component.AddInterfaceRequiredExisting | branches/main/libs/code/cisstMultiTask/mtsComponent.cpp:431-438 | null and no change exactly when the name is taken in the required/input map; otherwise registers and appends to the required list |
| Components.Component.AddInterfaceRequiredUsingMailbox | branches/main/libs/code/cisstMultiTask/mtsComponent.cpp:441-461 | null and no change exactly when the name is taken in the required/input map (whatever the provided/output map holds); otherwise a fresh unconnected required interface with that mailbox and required flag, registered and appended; Valid kept |
| Components.Component.AddInterfaceRequired | branches/main/libs/code/cisstMultiTask/mtsComponent.cpp:464-468 | as AddInterfaceRequiredUsingMailbox with no mailbox |
| Components.Component.AddInterfaceInput | branches/main/libs/code/cisstMultiTask/mtsComponent.cpp:471-477 | the base component always returns null |
| Components.Component.AddInterfaceInputExisting | branches/main/libs/code/cisstMultiTask/mtsComponent.cpp:480-490 | null and no change exactly when the name is taken; otherwise registers and appends to the input list |
| Components.Component.RemoveInterfaceProvided | branches/main/libs/code/cisstMultiTask/mtsComponent.cpp:209-269 | false and no change when the name is not a provided interface; otherwise the name leaves the map and the first occurrence of that interface leaves the list, success iff the list held it; under Valid it always did, and Valid is kept |
| Components.Component.RemoveInterfaceOutput | branches/main/libs/code/cisstMultiTask/mtsComponent.cpp:272-308 | the same for output interfaces |
| Components.Component.RemoveInterfaceRequired | branches/main/libs/code/cisstMultiTask/mtsComponent.cpp:347-389 | the same for required interfaces |
| Components.Component.RemoveInterfaceInput | branches/main/libs/code/cisstMultiTask/mtsComponent.cpp:392-428 | the same for input interfaces |
| Components.Component.GetInterfaceProvidedOrOutputFor | branches/main/libs/code/cisstMultiTask/mtsComponent.cpp:539-543 | null for an unknown name, otherwise the interface that required/input interface is connected to |
| Components.Component.ConnectInterfaceRequiredOrInput | branches/main/libs/code/cisstMultiTask/mtsComponent.cpp:546-573 | succeeds exactly when the name is registered, and then that interface (and nothing else) is connected to the given one |
| Components.Component.ProcessMailBoxes | branches/main/libs/code/cisstMultiTask/mtsComponent.cpp:580-591 | the sum of the per-interface counts over the given list |
| Components.Component.ProcessQueuedEvents | branches/main/libs/code/cisstMultiTask/mtsComponent.cpp:594-604 | the sum of the per-interface counts over the required list |
| Components.Component.ToGraphFormat | branches/main/libs/code/cisstMultiTask/mtsComponent.cpp:615-636 | "add taska [[name],[required names],[provided names]]" and a newline, each list comma-joined in ascending map order |
| Components.AppendJoined | branches/main/libs/code/cisstMultiTask/mtsComponent.cpp:618-624 | the comma-after-all-but-last loop appends exactly the joined names |
| Components.SplitJoin | branches/main/libs/code/cisstMultiTask/mtsComponent.cpp:615-636 | the joined list of comma-free names splits back into the same names: no comma is missing or extra |
| NamedMaps.SortedNames | branches/main/libs/code/cisstMultiTask/mtsComponent.cpp:101-104 | the keys, each once, strictly ascending: the map's iteration order |
| NamedMaps.InIterationOrderSpec | branches/main/libs/code/cisstMultiTask/mtsComponent.cpp:615-636 | the iteration order lists each key once, strictly ascending |
| NamedMaps.AscendingListingIsIterationOrder | branches/main/libs/code/cisstMultiTask/mtsComponent.cpp:101-104 | any strictly ascending listing of exactly the keys is the iteration order |
| NamedMaps.InsertNewItem | branches/main/libs/code/cisstMultiTask/mtsComponent.cpp:149-150 | adding an unused name for an unregistered object keeps the map injective and adds exactly that value |
| NamedMaps.RemoveName | branches/main/libs/code/cisstMultiTask/mtsComponent.cpp:240-244 | removing a name from an injective map removes exactly its value |
| Sequences.EraseFirst | branches/main/libs/code/cisstMultiTask/mtsComponent.cpp:246-256 | erases the first occurrence if there is one, reporting whether it did; otherwise the list is unchanged |
| Sequences.WithoutOnlyOccurrence | branches/main/libs/code/cisstMultiTask/mtsComponent.cpp:246-256 | erasing the only occurrence leaves a duplicate-free list of exactly the other elements |
| Sequences.TotalConcat | branches/main/libs/code/cisstMultiTask/mtsComponent.cpp:580-591 | the sum over a concatenation is the sum of the sums |
| Sequences.DistinctCard | branches/main/libs/code/cisstMultiTask/mtsComponent.cpp:197-200 | a duplicate-free list is as long as the set of its elements |
| Commands.Command.constructor | branches/branches/2009-11-11-cisstMultiTask-ICE/libs/include/cisstMultiTask/mtsRequiredInterface.h:286-289 | a new command has its name and kind and is enabled |
| Commands.Command.Enable | branches/branches/2009-11-11-cisstMultiTask-ICE/libs/include/cisstMultiTask/mtsRequiredInterface.h:164-167 | sets the enabled flag and nothing else |
| Commands.Command.Disable | branches/branches/2009-11-11-cisstMultiTask-ICE/libs/include/cisstMultiTask/mtsRequiredInterface.h:159-162 | clears the enabled flag and nothing else |
| RequiredInterfaces.CommandInfo.constructor | branches/branches/2009-11-11-cisstMultiTask-ICE/libs/include/cisstMultiTask/mtsRequiredInterface.h:182-185 | the slot refers to the caller's pointer and has the given required flag |
| RequiredInterfaces.CommandInfo.Clear | branches/branches/2009-11-11-cisstMultiTask-ICE/libs/include/cisstMultiTask/mtsRequiredInterface.h:189-191 | empties the caller's pointer and changes nothing else |
| RequiredInterfaces.CommandInfo.Bind | branches/branches/2009-11-11-cisstMultiTask-ICE/libs/include/cisstMultiTask/mtsRequiredInterface.h:193-196 | always writes the command (even a missing one) into the caller's pointer; succeeds iff there is a command or the slot is optional |
| RequiredInterfaces.RequiredInterface.constructor | branches/branches/2009-11-11-cisstMultiTask-ICE/libs/include/cisstMultiTask/mtsRequiredInterface.h:103-109 | name and mailbox set, not connected, every map empty |
| RequiredInterfaces.RequiredInterface.ConnectTo | branches/branches/2009-11-11-cisstMultiTask-ICE/libs/include/cisstMultiTask/mtsRequiredInterface.h:148-150 | GetConnectedInterface afterwards returns the given interface; only that one field changes |
| RequiredInterfaces.RequiredInterface.AddCommandPointer | branches/branches/2009-11-11-cisstMultiTask-ICE/libs/include/cisstMultiTask/mtsRequiredInterface.h:234-252 | succeeds iff the name is new in the map of the pointer's own signature; then a fresh slot on that pointer with the required flag (default true) is added; the other maps and the handlers are untouched |
| RequiredInterfaces.RequiredInterface.AddEventHandlerVoid | branches/branches/2009-11-11-cisstMultiTask-ICE/libs/include/cisstMultiTask/mtsRequiredInterface.h:281-312 | returns what the map holds under the name afterwards; no change for a taken name or a queued handler without mailbox; otherwise a fresh enabled command: a queued wrapper on the mailbox around the direct call, or the direct call itself |
| RequiredInterfaces.RequiredInterface.AddEventHandlerWrite | branches/branches/2009-11-11-cisstMultiTask-ICE/libs/include/cisstMultiTask/mtsRequiredInterface.h:315-331 | the same for write handlers, the queued wrapper having an argument buffer of 16 |
| RequiredInterfaces.RequiredInterface.DisableAllEvents | branches/branches/2009-11-11-cisstMultiTask-ICE/libs/include/cisstMultiTask/mtsRequiredInterface.h:159-162 | every void and write handler is disabled; only handler objects are written, no slot or map |
| RequiredInterfaces.RequiredInterface.EnableAllEvents | branches/branches/2009-11-11-cisstMultiTask-ICE/libs/include/cisstMultiTask/mtsRequiredInterface.h:164-167 | every void and write handler is enabled; only handler objects are written, no slot or map |
| RequiredInterfaces.SetEnabledForEach | branches/branches/2009-11-11-cisstMultiTask-ICE/libs/include/cisstMultiTask/mtsRequiredInterface.h:159-167 | the visit over a handler map sets the flag of every entry |
| MulticastCommands.MulticastCommandVoid.constructor | branches/branches/2010-01-13-gfortran/libs/include/cisstMultiTask/mtsMulticastCommandVoid.h:59 | the composite has its name and no members |
| MulticastCommands.MulticastCommandVoid.AddCommand | branches/branches/2010-01-13-gfortran/libs/include/cisstMultiTask/mtsMulticastCommandVoid.h:64-65 | appends exactly one member at the end, earlier members in place |
| MulticastCommands.MulticastCommandVoid.Execute | branches/branches/2010-01-13-gfortran/libs/include/cisstMultiTask/mtsMulticastCommandVoid.h:70-71 | runs every member once, in order; the result is Ok iff every member's is, otherwise the first member result that is not Ok |
| MulticastCommands.AggregateSpec | branches/branches/2010-01-13-gfortran/libs/include/cisstMultiTask/mtsMulticastCommandVoid.h:39-46 | the aggregate of the members' results is Ok iff all are, otherwise the earliest failure |
| MulticastCommands.AggregateSnoc | branches/branches/2010-01-13-gfortran/libs/include/cisstMultiTask/mtsMulticastCommandVoid.h:70-71 | running one more member changes the aggregate only while it is still Ok |
| CommandLineOptions.Canonical | cisst/cisstCommon/tests/cmnCommandLineOptionsTest.cpp:96-110 | the dash-free name does not start with a dash and is no longer than the name |
| CommandLineOptions.CanonicalStripsDashes | cisst/cisstCommon/tests/cmnCommandLineOptionsTest.cpp:96-110 | the name is its dash-free name preceded only by dashes |
| CommandLineOptions.CanonicalDash | cisst/cisstCommon/tests/cmnCommandLineOptionsTest.cpp:123-128 | a leading dash does not change the dash-free name |
| CommandLineOptions.FindIn | cisst/cisstCommon/tests/cmnCommandLineOptionsTest.cpp:96-110 | the first option answering to the name, none exactly when no option does |
| CommandLineOptions.Scan | cisst/cisstCommon/tests/cmnCommandLineOptionsTest.cpp:48-93 | the scan only adds indices of existing options to those given, and records values only for given options |
| CommandLineOptions.ParseResult | cisst/cisstCommon/tests/cmnCommandLineOptionsTest.cpp:26-72 | no options means failure; success means every required option was given; only existing options are given |
| CommandLineOptions.CommandLineOptions.constructor | cisst/cisstCommon/tests/cmnCommandLineOptionsTest.cpp:28 | no options, nothing given, table valid |
| CommandLineOptions.CommandLineOptions.Find | cisst/cisstCommon/tests/cmnCommandLineOptionsTest.cpp:96-110 | the walk over the table finds FindIn's answer |
| CommandLineOptions.CommandLineOptions.AddOption | cisst/cisstCommon/tests/cmnCommandLineOptionsTest.cpp:96-110 | refused exactly when the dash-free short or long name is already a name of an option; otherwise appended dash-free; names stay unique |
| CommandLineOptions.CommandLineOptions.AddOptionNoValue | cisst/cisstCommon/tests/cmnCommandLineOptionsTest.cpp:113-116 | AddOption of an optional option without value |
| CommandLineOptions.CommandLineOptions.AddOptionOneValue | cisst/cisstCommon/tests/cmnCommandLineOptionsTest.cpp:96-110 | AddOption of a one-value option with the given presence |
| CommandLineOptions.AppendKeepsValid | cisst/cisstCommon/tests/cmnCommandLineOptionsTest.cpp:96-110 | an option whose names are free keeps every name answering to one option only |
| CommandLineOptions.CommandLineOptions.Parse | cisst/cisstCommon/tests/cmnCommandLineOptionsTest.cpp:26-93 | starts afresh and leaves exactly ParseResult's success, given options and values; the table is unchanged |
| CommandLineOptions.CommandLineOptions.ScanArguments | cisst/cisstCommon/tests/cmnCommandLineOptionsTest.cpp:48-93 | the loop over the arguments leaves exactly the outcome of Scan from nothing given: success, given options and values |
| CommandLineOptions.CommandLineOptions.AllRequiredGiven | cisst/cisstCommon/tests/cmnCommandLineOptionsTest.cpp:61-72 | the loop over the table answers whether every required option was given |
| CommandLineOptions.FindAnySpelling | cisst/cisstCommon/tests/cmnCommandLineOptionsTest.cpp:113-129 | with unique names, a name of option k with zero, one or two leading dashes finds option k |
| CommandLineOptions.CommandLineOptions.IsSet | cisst/cisstCommon/tests/cmnCommandLineOptionsTest.cpp:121-128 | true only when an option answering to the dash-free name was given; with unique names, true exactly when the option answering to it was given (false for unknown names) |
| CommandLineOptions.IsSetAnySpelling | cisst/cisstCommon/tests/cmnCommandLineOptionsTest.cpp:113-129 | IsSet of the short name, the long name, and each with one or two leading dashes all say whether that option was given |
| CommandLineOptions.ScanOne | cisst/cisstCommon/tests/cmnCommandLineOptionsTest.cpp:48-58 | an argument (and value) spelling option k records k (and its value) and the scan goes on |
| CommandLineOptions.ScanWellFormedGiven | cisst/cisstCommon/tests/cmnCommandLineOptionsTest.cpp:75-93 | a well-formed command line scans successfully and gives exactly its options |
| CommandLineOptions.ScanWellFormedValues | cisst/cisstCommon/tests/cmnCommandLineOptionsTest.cpp:75-93 | a well-formed command line stores each option's value and keeps values of options it does not name |
| CommandLineOptions.ParseWellFormed | cisst/cisstCommon/tests/cmnCommandLineOptionsTest.cpp:36-93 | parsing a well-formed command line gives exactly its options with their values, and succeeds iff there is an option and every required one was given (so an empty line with one optional option succeeds, and a missing required option fails) |
| CommandLineOptions.FirstOptionRecorded | cisst/cisstCommon/tests/cmnCommandLineOptionsTest.cpp:61-72 | an option spelled first is recorded as given whatever follows, even when the parse fails |

## Left out

- Logging (`CMN_LOG_*`), `ToStream`, `UseSeparateLogFile`, `UseSeparateLogFileDefault`, `GetLogMultiplexer`, the component destructor and the copy constructor that throws: stream and file output.
- `Start` and `Configure` of the base component only log; `GetName`, `GetNumberOf*` and `GetConnectedInterface` are modelled as plain field reads whose meaning is stated by the lemmas and methods above.
- `delete`, ownership and the memory leaks around failed adds: objects are garbage-collected references here, so an interface created and then refused simply becomes unreachable.
- Allocation failure: `new` never returns null in the model, so the "unable to create interface" branches of `AddInterfaceProvided` and `AddInterfaceRequiredUsingMailbox` are not reachable.
- Thread safety of removal: all operations are sequential.
- Components.Component.AddInterfaceOutputExisting, AddInterfaceRequiredExisting and AddInterfaceInputExisting take a non-null interface reference; the C++ passes an unchecked pointer on to `AddItem`, and a null pointer is not modelled.
- Commands.Command.constructor: a new command starts enabled; the `mtsCommandBase` constructor is not part of this model, and `AddEventHandlerVoid`/`AddEventHandlerWrite` rely on this for the enabled flag of the handler they return.
- Components.InterfaceRequiredOrInput.ConnectTo: the main-branch required/input interface class is not part of this model; its `ConnectTo` is taken to record the other interface and succeed, as the required interface of the ICE branch does, so the "failed to connect" branch of `ConnectInterfaceRequiredOrInput` is not reachable.
- `cmnNamedMap` is not part of this model; its `AddItem` is taken to refuse a name already present and `GetItem` to return null for a missing name, and `GetNames` to list names in map order.
- Mailboxes, queued-command execution and the interfaces' own `ProcessMailBoxes` are not part of this model; their counts enter as the parameter `processed`.
- MulticastCommands.MulticastCommandVoid.Execute: the C++ body is not shown (mtsMulticastCommandVoid.h only declares it). The model runs each member once, in order, and returns Ok iff every member returns Ok, otherwise the first failure; each member's own result enters as the parameter `results`. `ToStream` is left out as output.
- Members declared without bodies in the required-interface header (`GetNamesOf*`, `GetEventHandler*`, `GetRequiredInterfaceDescription`, `Disconnect`, `BindCommandsAndEvents`, `ProcessMailBoxes`, `ToStream`) are not part of this model; the constructor is modelled from its documented effect.
- `AddFunction` of the required interface hands the slot over to the function object's `AddToRequiredInterface`, which is not part of this model; `AddCommandPointer` models the slot it is expected to add.
- The typed handler targets (member function and instance, or free function) are one `Callable` value; the C++ template argument types are not modelled.
- `cmnCommandLineOptions` itself is not part of this model; the registry follows what its test file asserts. Values are kept as the raw argument text: converting them to `int` or `double` and writing them through the caller's pointer are not modelled, and the error message text is not produced.
- CommandLineOptions.ParseResult: where the test file says nothing, the model picks one reading — an argument must start with a dash and name an option, a one-value option consumes the next argument, and an unknown option, a stray argument or a missing value stops the parse with failure; options named again are recorded again, the last value winning.
- Character order is code-point order: the map order of names is lexicographic on `char` values, as `std::string` comparison is on plain ASCII names.
