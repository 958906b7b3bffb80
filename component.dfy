/**
 * A component and its interface registry. Provided and output interfaces share one name space,
 * required and input interfaces another; alongside the two name-keyed maps the component keeps
 * one list per interface kind, in the order the interfaces were added. The kind of an interface
 * is a tag on the interface object.
 */
module Components {

  import opened Wrappers
  import opened Sequences
  import opened NamedMaps
  import Commands

  /** How a provided interface treats the commands it receives. */
  datatype QueuingPolicy = ComponentPolicy | CommandsShouldBeQueued | CommandsShouldNotBeQueued

  /** Whether a required interface must be connected. */
  datatype RequiredType = InterfaceRequired | InterfaceOptional

  datatype ProvidedOrOutputKind = Provided | Output
  datatype RequiredOrInputKind = Required | Input

  class InterfaceProvidedOrOutput {
    const Name: string
    const Kind: ProvidedOrOutputKind
    const Queuing: QueuingPolicy

    constructor (name: string, kind: ProvidedOrOutputKind, queuing: QueuingPolicy)
      ensures Name == name && Kind == kind && Queuing == queuing
    {
      Name, Kind, Queuing := name, kind, queuing;
    }
  }

  class InterfaceRequiredOrInput {
    const Name: string
    const Kind: RequiredOrInputKind
    /** Mailbox for queued events, if any. */
    const MailBox: Option<Commands.MailBox>
    const IsRequired: RequiredType
    /** The provided or output interface this one is connected to, if any. */
    var ConnectedInterface: InterfaceProvidedOrOutput?

    constructor (name: string, kind: RequiredOrInputKind, mailBox: Option<Commands.MailBox>, required: RequiredType)
      ensures Name == name && Kind == kind && MailBox == mailBox && IsRequired == required
      ensures ConnectedInterface == null
    {
      Name, Kind, MailBox, IsRequired := name, kind, mailBox, required;
      ConnectedInterface := null;
    }

    function GetConnectedInterface(): InterfaceProvidedOrOutput?
      reads this
    {
      ConnectedInterface
    }

    /** Records the interface this one is connected to; recording it always succeeds. */
    method ConnectTo(other: InterfaceProvidedOrOutput) returns (ok: bool)
      modifies this
      ensures ok && GetConnectedInterface() == other
    {
      ConnectedInterface := other;
      ok := true;
    }
  }

  /**
   * The policy a new provided interface is created with: the component's policy means "not
   * queued", so the result is queued exactly when queuing was asked for.
   */
  function CreationPolicy(queuingPolicy: QueuingPolicy): (created: QueuingPolicy)
    ensures created != ComponentPolicy
    ensures created == CommandsShouldBeQueued <==> queuingPolicy == CommandsShouldBeQueued
  {
    match queuingPolicy
    case ComponentPolicy | CommandsShouldNotBeQueued => CommandsShouldNotBeQueued
    case CommandsShouldBeQueued => CommandsShouldBeQueued
  }

  /** Names joined with commas: no comma before the first or after the last. */
  function Join(names: seq<string>): string
  {
    if |names| == 0 then ""
    else if |names| == 1 then names[0]
    else names[0] + "," + Join(names[1..])
  }

  /** The pieces of s between commas: the inverse of Join on non-empty lists of comma-free names. */
  function SplitAtCommas(s: string): (pieces: seq<string>)
    ensures |pieces| > 0
    decreases |s|
  {
    var i := FirstIndex(s, ',');
    if i == |s| then [s] else [s[..i]] + SplitAtCommas(s[i + 1..])
  }

  /** A comma-free string splits into itself alone. */
  lemma SplitWithoutComma(piece: string)
    requires ',' !in piece
    ensures SplitAtCommas(piece) == [piece]
  {
    assert FirstIndex(piece, ',') == |piece|;
  }

  /** Splitting stops at the first comma, which follows a comma-free piece. */
  lemma SplitAfterPiece(piece: string, tail: string)
    requires ',' !in piece
    ensures SplitAtCommas(piece + [','] + tail) == [piece] + SplitAtCommas(tail)
  {
    var s := piece + [','] + tail;
    FirstIndexPastPrefix(piece, ',', tail);
    assert s[..|piece|] == piece;
    assert s[|piece| + 1..] == tail;
  }

  /** Joining names none of which holds a comma can be undone by splitting at the commas. */
  lemma {:induction false} SplitJoin(names: seq<string>)
    requires |names| > 0
    requires forall k :: 0 <= k < |names| ==> ',' !in names[k]
    ensures SplitAtCommas(Join(names)) == names
    decreases |names|
  {
    if |names| == 1 {
      SplitWithoutComma(names[0]);
    } else {
      var rest := names[1..];
      assert Join(names) == names[0] + [','] + Join(rest);
      SplitAfterPiece(names[0], Join(rest));
      SplitJoin(rest);
      assert names == [names[0]] + rest;
    }
  }

  /** The graph description of a component: its name, its required names, its provided names. */
  function GraphLine(name: string, required: seq<string>, provided: seq<string>): string
  {
    "add taska [[" + name + "],[" + Join(required) + "],[" + Join(provided) + "]]\n"
  }

  /** The list holds each interface of that kind registered in the map, once. */
  ghost predicate MirrorsProvidedOrOutput(m: map<string, InterfaceProvidedOrOutput>,
                                          list: seq<InterfaceProvidedOrOutput>, kind: ProvidedOrOutputKind)
  {
    && NoDuplicates(list)
    && (forall x :: x in list ==> x in m.Values && x.Kind == kind)
    && (forall x :: x in m.Values && x.Kind == kind ==> x in list)
  }

  ghost predicate MirrorsRequiredOrInput(m: map<string, InterfaceRequiredOrInput>,
                                         list: seq<InterfaceRequiredOrInput>, kind: RequiredOrInputKind)
  {
    && NoDuplicates(list)
    && (forall x :: x in list ==> x in m.Values && x.Kind == kind)
    && (forall x :: x in m.Values && x.Kind == kind ==> x in list)
  }

  /**
   * Dropping a name from an injective registry, and its interface from the list of that kind,
   * keeps both lists mirroring the registry: the other kind's list is untouched.
   */
  lemma ProvidedOrOutputRemoval(m: map<string, InterfaceProvidedOrOutput>, name: string,
                                from: seq<InterfaceProvidedOrOutput>, kind: ProvidedOrOutputKind,
                                other: seq<InterfaceProvidedOrOutput>, otherKind: ProvidedOrOutputKind)
    requires Injective(m) && name in m && m[name].Kind == kind && otherKind != kind
    requires MirrorsProvidedOrOutput(m, from, kind) && MirrorsProvidedOrOutput(m, other, otherKind)
    ensures m[name] in from && Injective(m - {name})
    ensures m[name] in from && MirrorsProvidedOrOutput(m - {name}, Without(from, FirstIndex(from, m[name])), kind)
    ensures MirrorsProvidedOrOutput(m - {name}, other, otherKind)
  {
    RemoveName(m, name);
    WithoutOnlyOccurrence(from, m[name]);
  }

  /** The same as ProvidedOrOutputRemoval, for the required and input side. */
  lemma RequiredOrInputRemoval(m: map<string, InterfaceRequiredOrInput>, name: string,
                               from: seq<InterfaceRequiredOrInput>, kind: RequiredOrInputKind,
                               other: seq<InterfaceRequiredOrInput>, otherKind: RequiredOrInputKind)
    requires Injective(m) && name in m && m[name].Kind == kind && otherKind != kind
    requires MirrorsRequiredOrInput(m, from, kind) && MirrorsRequiredOrInput(m, other, otherKind)
    ensures m[name] in from && Injective(m - {name})
    ensures m[name] in from && MirrorsRequiredOrInput(m - {name}, Without(from, FirstIndex(from, m[name])), kind)
    ensures MirrorsRequiredOrInput(m - {name}, other, otherKind)
  {
    RemoveName(m, name);
    WithoutOnlyOccurrence(from, m[name]);
  }

  class Component {
    var Name: string
    var InterfacesProvidedOrOutput: map<string, InterfaceProvidedOrOutput>
    var InterfacesRequiredOrInput: map<string, InterfaceRequiredOrInput>
    var InterfacesProvided: seq<InterfaceProvidedOrOutput>
    var InterfacesOutput: seq<InterfaceProvidedOrOutput>
    var InterfacesRequired: seq<InterfaceRequiredOrInput>
    var InterfacesInput: seq<InterfaceRequiredOrInput>

    /**
     * Each interface object is registered under one name, and each list holds exactly the
     * registered interfaces of its kind, once each.
     */
    ghost predicate Valid()
      reads this
    {
      && Injective(InterfacesProvidedOrOutput)
      && Injective(InterfacesRequiredOrInput)
      && MirrorsProvidedOrOutput(InterfacesProvidedOrOutput, InterfacesProvided, Provided)
      && MirrorsProvidedOrOutput(InterfacesProvidedOrOutput, InterfacesOutput, Output)
      && MirrorsRequiredOrInput(InterfacesRequiredOrInput, InterfacesRequired, Required)
      && MirrorsRequiredOrInput(InterfacesRequiredOrInput, InterfacesInput, Input)
    }

    constructor (componentName: string)
      ensures Valid() && Name == componentName
      ensures InterfacesProvidedOrOutput == map[] && InterfacesRequiredOrInput == map[]
      ensures InterfacesProvided == [] && InterfacesOutput == []
      ensures InterfacesRequired == [] && InterfacesInput == []
    {
      Name := componentName;
      InterfacesProvidedOrOutput, InterfacesRequiredOrInput := map[], map[];
      InterfacesProvided, InterfacesOutput := [], [];
      InterfacesRequired, InterfacesInput := [], [];
    }

    function GetName(): string
      reads this
    {
      Name
    }

    /** Renames the component; its interfaces are untouched. */
    method SetName(componentName: string)
      modifies this
      ensures GetName() == componentName
      ensures InterfacesProvidedOrOutput == old(InterfacesProvidedOrOutput)
      ensures InterfacesRequiredOrInput == old(InterfacesRequiredOrInput)
      ensures InterfacesProvided == old(InterfacesProvided) && InterfacesOutput == old(InterfacesOutput)
      ensures InterfacesRequired == old(InterfacesRequired) && InterfacesInput == old(InterfacesInput)
      ensures old(Valid()) ==> Valid()
    {
      Name := componentName;
    }

    // ---------------------------------------------------------------- lookups

    /** The provided or output interface registered under name, or null. */
    function GetInterfaceProvidedOrOutput(name: string): (r: InterfaceProvidedOrOutput?)
      reads this
      ensures r != null <==> name in InterfacesProvidedOrOutput
      ensures r != null ==> r == InterfacesProvidedOrOutput[name]
    {
      if name in InterfacesProvidedOrOutput then InterfacesProvidedOrOutput[name] else null
    }

    /** The interface registered under name if it is a provided one, else null. */
    function GetInterfaceProvided(name: string): (r: InterfaceProvidedOrOutput?)
      reads this
      ensures r != null <==> name in InterfacesProvidedOrOutput && InterfacesProvidedOrOutput[name].Kind == Provided
      ensures r != null ==> r == InterfacesProvidedOrOutput[name]
    {
      var i := GetInterfaceProvidedOrOutput(name);
      if i != null && i.Kind == Provided then i else null
    }

    /** The interface registered under name if it is an output one, else null. */
    function GetInterfaceOutput(name: string): (r: InterfaceProvidedOrOutput?)
      reads this
      ensures r != null <==> name in InterfacesProvidedOrOutput && InterfacesProvidedOrOutput[name].Kind == Output
      ensures r != null ==> r == InterfacesProvidedOrOutput[name]
    {
      var i := GetInterfaceProvidedOrOutput(name);
      if i != null && i.Kind == Output then i else null
    }

    /** The required or input interface registered under name, or null. */
    function GetInterfaceRequiredOrInput(name: string): (r: InterfaceRequiredOrInput?)
      reads this
      ensures r != null <==> name in InterfacesRequiredOrInput
      ensures r != null ==> r == InterfacesRequiredOrInput[name]
    {
      if name in InterfacesRequiredOrInput then InterfacesRequiredOrInput[name] else null
    }

    /** The interface registered under name if it is a required one, else null. */
    function GetInterfaceRequired(name: string): (r: InterfaceRequiredOrInput?)
      reads this
      ensures r != null <==> name in InterfacesRequiredOrInput && InterfacesRequiredOrInput[name].Kind == Required
      ensures r != null ==> r == InterfacesRequiredOrInput[name]
    {
      var i := GetInterfaceRequiredOrInput(name);
      if i != null && i.Kind == Required then i else null
    }

    /** The interface registered under name if it is an input one, else null. */
    function GetInterfaceInput(name: string): (r: InterfaceRequiredOrInput?)
      reads this
      ensures r != null <==> name in InterfacesRequiredOrInput && InterfacesRequiredOrInput[name].Kind == Input
      ensures r != null ==> r == InterfacesRequiredOrInput[name]
    {
      var i := GetInterfaceRequiredOrInput(name);
      if i != null && i.Kind == Input then i else null
    }

    function GetNumberOfInterfacesProvided(): nat
      reads this
    {
      |InterfacesProvided|
    }

    function GetNumberOfInterfacesOutput(): nat
      reads this
    {
      |InterfacesOutput|
    }

    function GetNumberOfInterfacesRequired(): nat
      reads this
    {
      |InterfacesRequired|
    }

    function GetNumberOfInterfacesInput(): nat
      reads this
    {
      |InterfacesInput|
    }

    // ---------------------------------------------------------------- names

    /** The names of the provided and output interfaces, in map order. */
    method GetNamesOfInterfacesProvidedOrOutput() returns (names: seq<string>)
      ensures names == InIterationOrder(InterfacesProvidedOrOutput.Keys)
      ensures StrictlyAscending(names)
      ensures forall n :: n in names <==> n in InterfacesProvidedOrOutput
    {
      names := SortedNames(InterfacesProvidedOrOutput.Keys);
    }

    /** The names of the required and input interfaces, in map order. */
    method GetNamesOfInterfacesRequiredOrInput() returns (names: seq<string>)
      ensures names == InIterationOrder(InterfacesRequiredOrInput.Keys)
      ensures StrictlyAscending(names)
      ensures forall n :: n in names <==> n in InterfacesRequiredOrInput
    {
      names := SortedNames(InterfacesRequiredOrInput.Keys);
    }

    /** The names the provided interfaces give themselves, in the order they were added. */
    method GetNamesOfInterfacesProvided() returns (names: seq<string>)
      ensures |names| == GetNumberOfInterfacesProvided()
      ensures forall i :: 0 <= i < |names| ==> names[i] == InterfacesProvided[i].Name
    {
      names := NamesInOrder(InterfacesProvided, (i: InterfaceProvidedOrOutput) => i.Name);
    }

    /** The names the output interfaces give themselves, in the order they were added. */
    method GetNamesOfInterfacesOutput() returns (names: seq<string>)
      ensures |names| == GetNumberOfInterfacesOutput()
      ensures forall i :: 0 <= i < |names| ==> names[i] == InterfacesOutput[i].Name
    {
      names := NamesInOrder(InterfacesOutput, (i: InterfaceProvidedOrOutput) => i.Name);
    }

    /** The names the required interfaces give themselves, in the order they were added. */
    method GetNamesOfInterfacesRequired() returns (names: seq<string>)
      ensures |names| == GetNumberOfInterfacesRequired()
      ensures forall i :: 0 <= i < |names| ==> names[i] == InterfacesRequired[i].Name
    {
      names := NamesInOrder(InterfacesRequired, (i: InterfaceRequiredOrInput) => i.Name);
    }

    /** The names the input interfaces give themselves, in the order they were added. */
    method GetNamesOfInterfacesInput() returns (names: seq<string>)
      ensures |names| == GetNumberOfInterfacesInput()
      ensures forall i :: 0 <= i < |names| ==> names[i] == InterfacesInput[i].Name
    {
      names := NamesInOrder(InterfacesInput, (i: InterfaceRequiredOrInput) => i.Name);
    }

    // ---------------------------------------------------------------- provided and output

    /**
     * Creates a provided interface with the policy CreationPolicy(queuingPolicy) and registers
     * it; a name already used by a provided or output interface is refused with null and
     * nothing changes.
     */
    method AddInterfaceProvided(interfaceProvidedName: string, queuingPolicy: QueuingPolicy)
      returns (r: InterfaceProvidedOrOutput?)
      modifies this
      ensures r == null <==> interfaceProvidedName in old(InterfacesProvidedOrOutput)
      ensures r == null ==>
                InterfacesProvidedOrOutput == old(InterfacesProvidedOrOutput) && InterfacesProvided == old(InterfacesProvided)
      ensures r != null ==>
                && fresh(r) && r.Name == interfaceProvidedName && r.Kind == Provided
                && r.Queuing == CreationPolicy(queuingPolicy)
                && InterfacesProvidedOrOutput == old(InterfacesProvidedOrOutput)[interfaceProvidedName := r]
                && InterfacesProvided == old(InterfacesProvided) + [r]
      ensures Name == old(Name) && InterfacesOutput == old(InterfacesOutput)
      ensures InterfacesRequiredOrInput == old(InterfacesRequiredOrInput)
      ensures InterfacesRequired == old(InterfacesRequired) && InterfacesInput == old(InterfacesInput)
      ensures old(Valid()) ==> Valid()
    {
      var interfaceProvided := new InterfaceProvidedOrOutput(interfaceProvidedName, Provided, CreationPolicy(queuingPolicy));
      if interfaceProvidedName !in InterfacesProvidedOrOutput {
        if Valid() {
          InsertNewItem(InterfacesProvidedOrOutput, interfaceProvidedName, interfaceProvided);
        }
        InterfacesProvidedOrOutput := InterfacesProvidedOrOutput[interfaceProvidedName := interfaceProvided];
        InterfacesProvided := InterfacesProvided + [interfaceProvided];
        return interfaceProvided;
      }
      return null;
    }

    /** The base component cannot create output interfaces: always null, nothing changes. */
    method AddInterfaceOutput(interfaceOutputName: string) returns (r: InterfaceProvidedOrOutput?)
      ensures r == null
    {
      return null;
    }

    /**
     * Registers an existing output interface under the given name; a name already used by a
     * provided or output interface is refused with null and nothing changes.
     */
    method AddInterfaceOutputExisting(interfaceOutputName: string, interfaceOutput: InterfaceProvidedOrOutput)
      returns (r: InterfaceProvidedOrOutput?)
      requires interfaceOutput.Kind == Output
      modifies this
      ensures r == null <==> interfaceOutputName in old(InterfacesProvidedOrOutput)
      ensures r == null ==>
                InterfacesProvidedOrOutput == old(InterfacesProvidedOrOutput) && InterfacesOutput == old(InterfacesOutput)
      ensures r != null ==>
                && r == interfaceOutput
                && InterfacesProvidedOrOutput == old(InterfacesProvidedOrOutput)[interfaceOutputName := interfaceOutput]
                && InterfacesOutput == old(InterfacesOutput) + [interfaceOutput]
      ensures Name == old(Name) && InterfacesProvided == old(InterfacesProvided)
      ensures InterfacesRequiredOrInput == old(InterfacesRequiredOrInput)
      ensures InterfacesRequired == old(InterfacesRequired) && InterfacesInput == old(InterfacesInput)
      ensures old(Valid()) && interfaceOutput !in old(InterfacesProvidedOrOutput.Values) ==> Valid()
    {
      if interfaceOutputName !in InterfacesProvidedOrOutput {
        if Valid() && interfaceOutput !in InterfacesProvidedOrOutput.Values {
          InsertNewItem(InterfacesProvidedOrOutput, interfaceOutputName, interfaceOutput);
        }
        InterfacesProvidedOrOutput := InterfacesProvidedOrOutput[interfaceOutputName := interfaceOutput];
        InterfacesOutput := InterfacesOutput + [interfaceOutput];
        return interfaceOutput;
      }
      return null;
    }

    /**
     * Removes the provided interface registered under the name. An unknown name, or a name of an
     * output interface, is refused with nothing changed. Otherwise the name leaves the map first,
     * and then the first occurrence of that interface leaves the list; if the list does not hold
     * it the call fails with the name already gone.
     */
    method RemoveInterfaceProvided(interfaceProvidedName: string) returns (ok: bool)
      modifies this
      ensures old(GetInterfaceProvided(interfaceProvidedName)) == null ==>
                && !ok
                && InterfacesProvidedOrOutput == old(InterfacesProvidedOrOutput)
                && InterfacesProvided == old(InterfacesProvided)
      ensures var p := old(GetInterfaceProvided(interfaceProvidedName));
              p != null ==>
                && InterfacesProvidedOrOutput == old(InterfacesProvidedOrOutput) - {interfaceProvidedName}
                && (ok <==> p in old(InterfacesProvided))
                && InterfacesProvided ==
                     if ok then Without(old(InterfacesProvided), FirstIndex(old(InterfacesProvided), p))
                     else old(InterfacesProvided)
      ensures Name == old(Name) && InterfacesOutput == old(InterfacesOutput)
      ensures InterfacesRequiredOrInput == old(InterfacesRequiredOrInput)
      ensures InterfacesRequired == old(InterfacesRequired) && InterfacesInput == old(InterfacesInput)
      ensures old(Valid()) ==> Valid() && (ok <==> old(GetInterfaceProvided(interfaceProvidedName)) != null)
    {
      var interfaceProvided := GetInterfaceProvided(interfaceProvidedName);
      if interfaceProvided == null {
        return false;
      }
      ghost var wasValid := Valid();
      if wasValid {
        ProvidedOrOutputRemoval(InterfacesProvidedOrOutput, interfaceProvidedName, InterfacesProvided, Provided, InterfacesOutput, Output);
      }
      InterfacesProvidedOrOutput := InterfacesProvidedOrOutput - {interfaceProvidedName};
      var list, removed := EraseFirst(InterfacesProvided, interfaceProvided);
      if !removed {
        return false;
      }
      InterfacesProvided := list;
      return true;
    }

    /**
     * Removes the output interface registered under the name, with the same steps and outcomes
     * as RemoveInterfaceProvided.
     */
    method RemoveInterfaceOutput(interfaceOutputName: string) returns (ok: bool)
      modifies this
      ensures old(GetInterfaceOutput(interfaceOutputName)) == null ==>
                && !ok
                && InterfacesProvidedOrOutput == old(InterfacesProvidedOrOutput)
                && InterfacesOutput == old(InterfacesOutput)
      ensures var p := old(GetInterfaceOutput(interfaceOutputName));
              p != null ==>
                && InterfacesProvidedOrOutput == old(InterfacesProvidedOrOutput) - {interfaceOutputName}
                && (ok <==> p in old(InterfacesOutput))
                && InterfacesOutput ==
                     if ok then Without(old(InterfacesOutput), FirstIndex(old(InterfacesOutput), p))
                     else old(InterfacesOutput)
      ensures Name == old(Name) && InterfacesProvided == old(InterfacesProvided)
      ensures InterfacesRequiredOrInput == old(InterfacesRequiredOrInput)
      ensures InterfacesRequired == old(InterfacesRequired) && InterfacesInput == old(InterfacesInput)
      ensures old(Valid()) ==> Valid() && (ok <==> old(GetInterfaceOutput(interfaceOutputName)) != null)
    {
      var interfaceOutput := GetInterfaceOutput(interfaceOutputName);
      if interfaceOutput == null {
        return false;
      }
      ghost var wasValid := Valid();
      if wasValid {
        ProvidedOrOutputRemoval(InterfacesProvidedOrOutput, interfaceOutputName, InterfacesOutput, Output, InterfacesProvided, Provided);
      }
      InterfacesProvidedOrOutput := InterfacesProvidedOrOutput - {interfaceOutputName};
      var list, removed := EraseFirst(InterfacesOutput, interfaceOutput);
      if !removed {
        return false;
      }
      InterfacesOutput := list;
      return true;
    }

    // ---------------------------------------------------------------- required and input

    /**
     * Registers an existing required interface under the given name; a name already used by a
     * required or input interface is refused with null and nothing changes.
     */
    method AddInterfaceRequiredExisting(interfaceRequiredName: string, interfaceRequired: InterfaceRequiredOrInput)
      returns (r: InterfaceRequiredOrInput?)
      requires interfaceRequired.Kind == Required
      modifies this
      ensures r == null <==> interfaceRequiredName in old(InterfacesRequiredOrInput)
      ensures r == null ==>
                InterfacesRequiredOrInput == old(InterfacesRequiredOrInput) && InterfacesRequired == old(InterfacesRequired)
      ensures r != null ==>
                && r == interfaceRequired
                && InterfacesRequiredOrInput == old(InterfacesRequiredOrInput)[interfaceRequiredName := interfaceRequired]
                && InterfacesRequired == old(InterfacesRequired) + [interfaceRequired]
      ensures Name == old(Name) && InterfacesInput == old(InterfacesInput)
      ensures InterfacesProvidedOrOutput == old(InterfacesProvidedOrOutput)
      ensures InterfacesProvided == old(InterfacesProvided) && InterfacesOutput == old(InterfacesOutput)
      ensures old(Valid()) && interfaceRequired !in old(InterfacesRequiredOrInput.Values) ==> Valid()
    {
      if interfaceRequiredName !in InterfacesRequiredOrInput {
        if Valid() && interfaceRequired !in InterfacesRequiredOrInput.Values {
          InsertNewItem(InterfacesRequiredOrInput, interfaceRequiredName, interfaceRequired);
        }
        InterfacesRequiredOrInput := InterfacesRequiredOrInput[interfaceRequiredName := interfaceRequired];
        InterfacesRequired := InterfacesRequired + [interfaceRequired];
        return interfaceRequired;
      }
      return null;
    }

    /**
     * Creates a required interface that queues its events in mailBox (none: events run
     * directly) and registers it; a name already used by a required or input interface is
     * refused with null and nothing changes.
     */
    method AddInterfaceRequiredUsingMailbox(interfaceRequiredName: string, mailBox: Option<Commands.MailBox>,
                                            required: RequiredType)
      returns (r: InterfaceRequiredOrInput?)
      modifies this
      ensures r == null <==> interfaceRequiredName in old(InterfacesRequiredOrInput)
      ensures r == null ==>
                InterfacesRequiredOrInput == old(InterfacesRequiredOrInput) && InterfacesRequired == old(InterfacesRequired)
      ensures r != null ==>
                && fresh(r) && r.Name == interfaceRequiredName && r.Kind == Required
                && r.MailBox == mailBox && r.IsRequired == required && r.ConnectedInterface == null
                && InterfacesRequiredOrInput == old(InterfacesRequiredOrInput)[interfaceRequiredName := r]
                && InterfacesRequired == old(InterfacesRequired) + [r]
      ensures Name == old(Name) && InterfacesInput == old(InterfacesInput)
      ensures InterfacesProvidedOrOutput == old(InterfacesProvidedOrOutput)
      ensures InterfacesProvided == old(InterfacesProvided) && InterfacesOutput == old(InterfacesOutput)
      ensures old(Valid()) ==> Valid()
    {
      var interfaceRequired := new InterfaceRequiredOrInput(interfaceRequiredName, Required, mailBox, required);
      if interfaceRequiredName !in InterfacesRequiredOrInput {
        if Valid() {
          InsertNewItem(InterfacesRequiredOrInput, interfaceRequiredName, interfaceRequired);
        }
        InterfacesRequiredOrInput := InterfacesRequiredOrInput[interfaceRequiredName := interfaceRequired];
        InterfacesRequired := InterfacesRequired + [interfaceRequired];
        return interfaceRequired;
      }
      return null;
    }

    /** AddInterfaceRequiredUsingMailbox without a mailbox: the base component does not queue events. */
    method AddInterfaceRequired(interfaceRequiredName: string, required: RequiredType)
      returns (r: InterfaceRequiredOrInput?)
      modifies this
      ensures r == null <==> interfaceRequiredName in old(InterfacesRequiredOrInput)
      ensures r == null ==>
                InterfacesRequiredOrInput == old(InterfacesRequiredOrInput) && InterfacesRequired == old(InterfacesRequired)
      ensures r != null ==>
                && fresh(r) && r.Name == interfaceRequiredName && r.Kind == Required
                && r.MailBox == None && r.IsRequired == required && r.ConnectedInterface == null
                && InterfacesRequiredOrInput == old(InterfacesRequiredOrInput)[interfaceRequiredName := r]
                && InterfacesRequired == old(InterfacesRequired) + [r]
      ensures Name == old(Name) && InterfacesInput == old(InterfacesInput)
      ensures InterfacesProvidedOrOutput == old(InterfacesProvidedOrOutput)
      ensures InterfacesProvided == old(InterfacesProvided) && InterfacesOutput == old(InterfacesOutput)
      ensures old(Valid()) ==> Valid()
    {
      r := AddInterfaceRequiredUsingMailbox(interfaceRequiredName, None, required);
    }

    /** The base component cannot create input interfaces: always null, nothing changes. */
    method AddInterfaceInput(interfaceInputName: string) returns (r: InterfaceRequiredOrInput?)
      ensures r == null
    {
      return null;
    }

    /**
     * Registers an existing input interface under the given name; a name already used by a
     * required or input interface is refused with null and nothing changes.
     */
    method AddInterfaceInputExisting(interfaceInputName: string, interfaceInput: InterfaceRequiredOrInput)
      returns (r: InterfaceRequiredOrInput?)
      requires interfaceInput.Kind == Input
      modifies this
      ensures r == null <==> interfaceInputName in old(InterfacesRequiredOrInput)
      ensures r == null ==>
                InterfacesRequiredOrInput == old(InterfacesRequiredOrInput) && InterfacesInput == old(InterfacesInput)
      ensures r != null ==>
                && r == interfaceInput
                && InterfacesRequiredOrInput == old(InterfacesRequiredOrInput)[interfaceInputName := interfaceInput]
                && InterfacesInput == old(InterfacesInput) + [interfaceInput]
      ensures Name == old(Name) && InterfacesRequired == old(InterfacesRequired)
      ensures InterfacesProvidedOrOutput == old(InterfacesProvidedOrOutput)
      ensures InterfacesProvided == old(InterfacesProvided) && InterfacesOutput == old(InterfacesOutput)
      ensures old(Valid()) && interfaceInput !in old(InterfacesRequiredOrInput.Values) ==> Valid()
    {
      if interfaceInputName !in InterfacesRequiredOrInput {
        if Valid() && interfaceInput !in InterfacesRequiredOrInput.Values {
          InsertNewItem(InterfacesRequiredOrInput, interfaceInputName, interfaceInput);
        }
        InterfacesRequiredOrInput := InterfacesRequiredOrInput[interfaceInputName := interfaceInput];
        InterfacesInput := InterfacesInput + [interfaceInput];
        return interfaceInput;
      }
      return null;
    }

    /**
     * Removes the required interface registered under the name, with the same steps and
     * outcomes as RemoveInterfaceProvided on the required/input side.
     */
    method RemoveInterfaceRequired(interfaceRequiredName: string) returns (ok: bool)
      modifies this
      ensures old(GetInterfaceRequired(interfaceRequiredName)) == null ==>
                && !ok
                && InterfacesRequiredOrInput == old(InterfacesRequiredOrInput)
                && InterfacesRequired == old(InterfacesRequired)
      ensures var p := old(GetInterfaceRequired(interfaceRequiredName));
              p != null ==>
                && InterfacesRequiredOrInput == old(InterfacesRequiredOrInput) - {interfaceRequiredName}
                && (ok <==> p in old(InterfacesRequired))
                && InterfacesRequired ==
                     if ok then Without(old(InterfacesRequired), FirstIndex(old(InterfacesRequired), p))
                     else old(InterfacesRequired)
      ensures Name == old(Name) && InterfacesInput == old(InterfacesInput)
      ensures InterfacesProvidedOrOutput == old(InterfacesProvidedOrOutput)
      ensures InterfacesProvided == old(InterfacesProvided) && InterfacesOutput == old(InterfacesOutput)
      ensures old(Valid()) ==> Valid() && (ok <==> old(GetInterfaceRequired(interfaceRequiredName)) != null)
    {
      var interfaceRequired := GetInterfaceRequired(interfaceRequiredName);
      if interfaceRequired == null {
        return false;
      }
      ghost var wasValid := Valid();
      if wasValid {
        RequiredOrInputRemoval(InterfacesRequiredOrInput, interfaceRequiredName, InterfacesRequired, Required, InterfacesInput, Input);
      }
      InterfacesRequiredOrInput := InterfacesRequiredOrInput - {interfaceRequiredName};
      var list, removed := EraseFirst(InterfacesRequired, interfaceRequired);
      if !removed {
        return false;
      }
      InterfacesRequired := list;
      return true;
    }

    /**
     * Removes the input interface registered under the name, with the same steps and outcomes
     * as RemoveInterfaceProvided on the required/input side.
     */
    method RemoveInterfaceInput(interfaceInputName: string) returns (ok: bool)
      modifies this
      ensures old(GetInterfaceInput(interfaceInputName)) == null ==>
                && !ok
                && InterfacesRequiredOrInput == old(InterfacesRequiredOrInput)
                && InterfacesInput == old(InterfacesInput)
      ensures var p := old(GetInterfaceInput(interfaceInputName));
              p != null ==>
                && InterfacesRequiredOrInput == old(InterfacesRequiredOrInput) - {interfaceInputName}
                && (ok <==> p in old(InterfacesInput))
                && InterfacesInput ==
                     if ok then Without(old(InterfacesInput), FirstIndex(old(InterfacesInput), p))
                     else old(InterfacesInput)
      ensures Name == old(Name) && InterfacesRequired == old(InterfacesRequired)
      ensures InterfacesProvidedOrOutput == old(InterfacesProvidedOrOutput)
      ensures InterfacesProvided == old(InterfacesProvided) && InterfacesOutput == old(InterfacesOutput)
      ensures old(Valid()) ==> Valid() && (ok <==> old(GetInterfaceInput(interfaceInputName)) != null)
    {
      var interfaceInput := GetInterfaceInput(interfaceInputName);
      if interfaceInput == null {
        return false;
      }
      ghost var wasValid := Valid();
      if wasValid {
        RequiredOrInputRemoval(InterfacesRequiredOrInput, interfaceInputName, InterfacesInput, Input, InterfacesRequired, Required);
      }
      InterfacesRequiredOrInput := InterfacesRequiredOrInput - {interfaceInputName};
      var list, removed := EraseFirst(InterfacesInput, interfaceInput);
      if !removed {
        return false;
      }
      InterfacesInput := list;
      return true;
    }

    // ---------------------------------------------------------------- connection

    /** The interface that the required or input interface registered under name is connected to. */
    function GetInterfaceProvidedOrOutputFor(interfaceRequiredOrInputName: string): (r: InterfaceProvidedOrOutput?)
      reads this, InterfacesRequiredOrInput.Values
      ensures interfaceRequiredOrInputName !in InterfacesRequiredOrInput ==> r == null
      ensures interfaceRequiredOrInputName in InterfacesRequiredOrInput ==>
                r == InterfacesRequiredOrInput[interfaceRequiredOrInputName].ConnectedInterface
    {
      var i := GetInterfaceRequiredOrInput(interfaceRequiredOrInputName);
      if i != null then i.GetConnectedInterface() else null
    }

    /**
     * Connects the required or input interface registered under the name to the given interface:
     * false when there is none, otherwise the result of its ConnectTo. Only that interface changes.
     */
    method ConnectInterfaceRequiredOrInput(interfaceRequiredOrInputName: string,
                                           interfaceProvidedOrOutput: InterfaceProvidedOrOutput)
      returns (ok: bool)
      modifies if interfaceRequiredOrInputName in InterfacesRequiredOrInput
               then {InterfacesRequiredOrInput[interfaceRequiredOrInputName]} else {}
      ensures ok <==> interfaceRequiredOrInputName in InterfacesRequiredOrInput
      ensures ok ==> GetInterfaceProvidedOrOutputFor(interfaceRequiredOrInputName) == interfaceProvidedOrOutput
    {
      var interfaceRequiredOrInput := GetInterfaceRequiredOrInput(interfaceRequiredOrInputName);
      if interfaceRequiredOrInput != null {
        ok := interfaceRequiredOrInput.ConnectTo(interfaceProvidedOrOutput);
        if ok {
          return true;
        }
      }
      return false;
    }

    // ---------------------------------------------------------------- mailboxes

    /**
     * Processes the mailboxes of the given interfaces in list order; processed(i) is how many
     * commands interface i's own processing runs. Returns the total number run.
     */
    method ProcessMailBoxes(interfaces: seq<InterfaceProvidedOrOutput>, processed: InterfaceProvidedOrOutput -> nat)
      returns (numberOfCommands: nat)
      ensures numberOfCommands == Total(interfaces, processed)
    {
      numberOfCommands := 0;
      var index := 0;
      while index < |interfaces|
        invariant 0 <= index <= |interfaces|
        invariant numberOfCommands == Total(interfaces[..index], processed)
      {
        TotalConcat(interfaces[..index], [interfaces[index]], processed);
        assert interfaces[..index + 1] == interfaces[..index] + [interfaces[index]];
        numberOfCommands := numberOfCommands + processed(interfaces[index]);
        index := index + 1;
      }
      assert interfaces[..index] == interfaces;
    }

    /**
     * Processes the queued events of every required interface in list order; processed(i) is
     * how many events interface i's own processing runs. Returns the total number run.
     */
    method ProcessQueuedEvents(processed: InterfaceRequiredOrInput -> nat) returns (numberOfEvents: nat)
      ensures numberOfEvents == Total(InterfacesRequired, processed)
    {
      numberOfEvents := 0;
      var index := 0;
      while index < |InterfacesRequired|
        invariant 0 <= index <= |InterfacesRequired|
        invariant numberOfEvents == Total(InterfacesRequired[..index], processed)
      {
        TotalConcat(InterfacesRequired[..index], [InterfacesRequired[index]], processed);
        assert InterfacesRequired[..index + 1] == InterfacesRequired[..index] + [InterfacesRequired[index]];
        numberOfEvents := numberOfEvents + processed(InterfacesRequired[index]);
        index := index + 1;
      }
      assert InterfacesRequired[..index] == InterfacesRequired;
    }

    // ---------------------------------------------------------------- graph description

    /**
     * The component as one line of the graph description: its name, then the names of its
     * required and input interfaces, then those of its provided and output interfaces, each
     * list in map order.
     */
    method ToGraphFormat() returns (buffer: string)
      ensures buffer == GraphLine(Name, InIterationOrder(InterfacesRequiredOrInput.Keys),
                                  InIterationOrder(InterfacesProvidedOrOutput.Keys))
    {
      buffer := "add taska [[" + Name + "],[";
      var required := SortedNames(InterfacesRequiredOrInput.Keys);
      buffer := AppendJoined(buffer, required);
      buffer := buffer + "],[";
      var provided := SortedNames(InterfacesProvidedOrOutput.Keys);
      buffer := AppendJoined(buffer, provided);
      buffer := buffer + "]]\n";
    }
  }

  /** The names the items of a list give themselves, in list order. */
  method NamesInOrder<T>(items: seq<T>, nameOf: T -> string) returns (names: seq<string>)
    ensures |names| == |items|
    ensures forall i :: 0 <= i < |names| ==> names[i] == nameOf(items[i])
  {
    names := [];
    var index := 0;
    while index < |items|
      invariant 0 <= index <= |items|
      invariant |names| == index
      invariant forall i :: 0 <= i < index ==> names[i] == nameOf(items[i])
    {
      names := names + [nameOf(items[index])];
      index := index + 1;
    }
  }

  /**
   * Appends the names to buffer, walking them once and writing a comma after every name that is
   * not the last.
   */
  method AppendJoined(buffer: string, names: seq<string>) returns (result: string)
    ensures result == buffer + Join(names)
  {
    result := buffer;
    var index := 0;
    while index < |names|
      invariant 0 <= index <= |names|
      invariant result + Join(names[index..]) == buffer + Join(names)
    {
      assert names[index..][1..] == names[index + 1..];
      result := result + names[index];
      index := index + 1;
      if index < |names| {
        result := result + ",";
      }
    }
  }

  /**
   * Under Valid, the number of provided (output, required, input) interfaces is the number of
   * distinct interfaces of that kind registered in the name map.
   */
  lemma NumbersCountRegisteredInterfaces(c: Component)
    requires c.Valid()
    ensures c.GetNumberOfInterfacesProvided() == |set x | x in c.InterfacesProvidedOrOutput.Values && x.Kind == Provided|
    ensures c.GetNumberOfInterfacesOutput() == |set x | x in c.InterfacesProvidedOrOutput.Values && x.Kind == Output|
    ensures c.GetNumberOfInterfacesRequired() == |set x | x in c.InterfacesRequiredOrInput.Values && x.Kind == Required|
    ensures c.GetNumberOfInterfacesInput() == |set x | x in c.InterfacesRequiredOrInput.Values && x.Kind == Input|
  {
    DistinctCard(c.InterfacesProvided);
    assert (set x | x in c.InterfacesProvided) == (set x | x in c.InterfacesProvidedOrOutput.Values && x.Kind == Provided);
    DistinctCard(c.InterfacesOutput);
    assert (set x | x in c.InterfacesOutput) == (set x | x in c.InterfacesProvidedOrOutput.Values && x.Kind == Output);
    DistinctCard(c.InterfacesRequired);
    assert (set x | x in c.InterfacesRequired) == (set x | x in c.InterfacesRequiredOrInput.Values && x.Kind == Required);
    DistinctCard(c.InterfacesInput);
    assert (set x | x in c.InterfacesInput) == (set x | x in c.InterfacesRequiredOrInput.Values && x.Kind == Input);
  }
}
