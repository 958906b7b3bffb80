/**
 * The required interface of a task or device: named command-pointer slots of four signature
 * classes that are bound to the commands of one provided interface, and named event handlers
 * (void and write) that run directly or are queued in the interface's own mailbox.
 */
module RequiredInterfaces {

  import opened Wrappers
  import opened Commands

  /** Capacity of the argument buffer of a queued write event handler. */
  const DefaultArgBufferLen: nat := 16

  /** The four signature classes of commands. */
  datatype Signature = Void | Read | Write | QualifiedRead

  /** A provided interface of another task or device, identified only. */
  datatype DeviceInterface = DeviceInterface(id: nat)

  /**
   * The caller's command-pointer variable (the pointer member of a function object) that a slot
   * writes through; its signature class is the static type of the pointer.
   */
  class CommandPointer {
    const Signature: Signature
    var Command: Option<Command>

    constructor (signature: Signature)
      ensures Signature == signature && Command == None
    {
      Signature := signature;
      Command := None;
    }
  }

  /** A slot: where to write the bound command, and whether the binding may stay empty. */
  class CommandInfo {
    const Pointer: CommandPointer
    const IsRequired: bool

    constructor (commandPointer: CommandPointer, isRequired: bool)
      ensures Pointer == commandPointer && IsRequired == isRequired
    {
      Pointer := commandPointer;
      IsRequired := isRequired;
    }

    /** Empties the caller's pointer. */
    method Clear()
      modifies Pointer
      ensures Pointer.Command == None
    {
      Pointer.Command := None;
    }

    /**
     * Writes cmd into the caller's pointer, whether or not it is null; the binding is acceptable
     * when there is a command or the slot is optional.
     */
    method Bind(cmd: Option<Command>) returns (ok: bool)
      modifies Pointer
      ensures Pointer.Command == cmd
      ensures ok <==> cmd.Some? || !IsRequired
    {
      Pointer.Command := cmd;
      ok := cmd.Some? || !IsRequired;
    }
  }

  class RequiredInterface {
    const Name: string
    /** The mailbox for queued events, if the owner supports one. */
    const MailBox: Option<MailBox>
    /** The provided interface this one is connected to: there is at most one. */
    var OtherInterface: Option<DeviceInterface>

    var CommandPointersVoid: map<string, CommandInfo>
    var CommandPointersRead: map<string, CommandInfo>
    var CommandPointersWrite: map<string, CommandInfo>
    var CommandPointersQualifiedRead: map<string, CommandInfo>

    var EventHandlersVoid: map<string, Command>
    var EventHandlersWrite: map<string, Command>

    constructor (interfaceName: string, mailBox: Option<MailBox> := None)
      ensures Name == interfaceName && MailBox == mailBox && OtherInterface == None
      ensures forall s :: CommandPointers(s) == map[]
      ensures EventHandlersVoid == map[] && EventHandlersWrite == map[]
    {
      Name := interfaceName;
      MailBox := mailBox;
      OtherInterface := None;
      CommandPointersVoid, CommandPointersRead := map[], map[];
      CommandPointersWrite, CommandPointersQualifiedRead := map[], map[];
      EventHandlersVoid, EventHandlersWrite := map[], map[];
    }

    /** The slot map of one signature class. */
    function CommandPointers(signature: Signature): map<string, CommandInfo>
      reads this
    {
      match signature
      case Void => CommandPointersVoid
      case Read => CommandPointersRead
      case Write => CommandPointersWrite
      case QualifiedRead => CommandPointersQualifiedRead
    }

    function GetConnectedInterface(): Option<DeviceInterface>
      reads this
    {
      OtherInterface
    }

    /** Records the provided interface this one is connected to, replacing any earlier one. */
    method ConnectTo(other: Option<DeviceInterface>)
      modifies this`OtherInterface
      ensures GetConnectedInterface() == other
    {
      OtherInterface := other;
    }

    /**
     * Declares a slot under commandName in the map of the pointer's own signature class; a name
     * already in that map is refused. The slot is required unless stated otherwise.
     */
    method AddCommandPointer(commandName: string, commandPointer: CommandPointer, required: bool := true)
      returns (ok: bool)
      modifies this
      ensures var signature := commandPointer.Signature;
        && (ok <==> commandName !in old(CommandPointers(signature)))
        && (!ok ==> CommandPointers(signature) == old(CommandPointers(signature)))
        && (ok ==>
              && commandName in CommandPointers(signature)
              && CommandPointers(signature) == old(CommandPointers(signature))[commandName := CommandPointers(signature)[commandName]]
              && fresh(CommandPointers(signature)[commandName])
              && CommandPointers(signature)[commandName].Pointer == commandPointer
              && CommandPointers(signature)[commandName].IsRequired == required)
        && (forall s :: s != signature ==> CommandPointers(s) == old(CommandPointers(s)))
      ensures EventHandlersVoid == old(EventHandlersVoid) && EventHandlersWrite == old(EventHandlersWrite)
      ensures OtherInterface == old(OtherInterface)
    {
      var info := new CommandInfo(commandPointer, required);
      match commandPointer.Signature
      case Void =>
        ok := commandName !in CommandPointersVoid;
        if ok { CommandPointersVoid := CommandPointersVoid[commandName := info]; }
      case Read =>
        ok := commandName !in CommandPointersRead;
        if ok { CommandPointersRead := CommandPointersRead[commandName := info]; }
      case Write =>
        ok := commandName !in CommandPointersWrite;
        if ok { CommandPointersWrite := CommandPointersWrite[commandName := info]; }
      case QualifiedRead =>
        ok := commandName !in CommandPointersQualifiedRead;
        if ok { CommandPointersQualifiedRead := CommandPointersQualifiedRead[commandName := info]; }
    }

    /**
     * Adds a void event handler running handler. A queued handler is wrapped in a queued command
     * on this interface's mailbox, and is not added at all when there is no mailbox; a direct one
     * is added as it is. A name already present is refused. Returns whatever the map holds under
     * eventName afterwards.
     */
    method AddEventHandlerVoid(handler: Callable, eventName: string, queued: bool := true)
      returns (r: Option<Command>)
      modifies this`EventHandlersVoid
      ensures r == (if eventName in EventHandlersVoid then Some(EventHandlersVoid[eventName]) else None)
      ensures eventName in old(EventHandlersVoid) || (queued && MailBox.None?) ==>
                EventHandlersVoid == old(EventHandlersVoid)
      ensures eventName !in old(EventHandlersVoid) && (!queued || MailBox.Some?) ==>
                && r.Some? && fresh(r.value)
                && EventHandlersVoid == old(EventHandlersVoid)[eventName := r.value]
                && r.value.Enabled
                && (queued ==>
                      && r.value.Kind.QueuedVoid? && r.value.Kind.mailBox == MailBox.value
                      && r.value.Kind.actual.Kind == Direct(handler))
                && (!queued ==> r.value.Kind == Direct(handler))
    {
      var actualCommand := new Command(eventName, Direct(handler));
      if queued {
        if MailBox.Some? {
          var queuedCommand := new Command(eventName, QueuedVoid(MailBox.value, actualCommand));
          if eventName !in EventHandlersVoid {
            EventHandlersVoid := EventHandlersVoid[eventName := queuedCommand];
          }
        }
        // without a mailbox the handler is refused (the source logs an error)
      } else if eventName !in EventHandlersVoid {
        EventHandlersVoid := EventHandlersVoid[eventName := actualCommand];
      }
      r := if eventName in EventHandlersVoid then Some(EventHandlersVoid[eventName]) else None;
    }

    /**
     * Adds a write event handler, as AddEventHandlerVoid does; a queued one copies its argument
     * into a buffer of DefaultArgBufferLen slots.
     */
    method AddEventHandlerWrite(handler: Callable, eventName: string, queued: bool := true)
      returns (r: Option<Command>)
      modifies this`EventHandlersWrite
      ensures r == (if eventName in EventHandlersWrite then Some(EventHandlersWrite[eventName]) else None)
      ensures eventName in old(EventHandlersWrite) || (queued && MailBox.None?) ==>
                EventHandlersWrite == old(EventHandlersWrite)
      ensures eventName !in old(EventHandlersWrite) && (!queued || MailBox.Some?) ==>
                && r.Some? && fresh(r.value)
                && EventHandlersWrite == old(EventHandlersWrite)[eventName := r.value]
                && r.value.Enabled
                && (queued ==>
                      && r.value.Kind.QueuedWrite? && r.value.Kind.mailBox == MailBox.value
                      && r.value.Kind.argumentBufferLength == DefaultArgBufferLen
                      && r.value.Kind.actual.Kind == Direct(handler))
                && (!queued ==> r.value.Kind == Direct(handler))
    {
      var actualCommand := new Command(eventName, Direct(handler));
      if queued {
        if MailBox.Some? {
          var queuedCommand := new Command(eventName, QueuedWrite(MailBox.value, actualCommand, DefaultArgBufferLen));
          if eventName !in EventHandlersWrite {
            EventHandlersWrite := EventHandlersWrite[eventName := queuedCommand];
          }
        }
      } else if eventName !in EventHandlersWrite {
        EventHandlersWrite := EventHandlersWrite[eventName := actualCommand];
      }
      r := if eventName in EventHandlersWrite then Some(EventHandlersWrite[eventName]) else None;
    }

    /** Disables every event handler, void and write; no slot and no map changes. */
    method DisableAllEvents()
      modifies EventHandlersVoid.Values, EventHandlersWrite.Values
      ensures forall n :: n in EventHandlersVoid ==> !EventHandlersVoid[n].Enabled
      ensures forall n :: n in EventHandlersWrite ==> !EventHandlersWrite[n].Enabled
    {
      SetEnabledForEach(EventHandlersVoid, false);
      SetEnabledForEach(EventHandlersWrite, false);
    }

    /** Enables every event handler, void and write; no slot and no map changes. */
    method EnableAllEvents()
      modifies EventHandlersVoid.Values, EventHandlersWrite.Values
      ensures forall n :: n in EventHandlersVoid ==> EventHandlersVoid[n].Enabled
      ensures forall n :: n in EventHandlersWrite ==> EventHandlersWrite[n].Enabled
    {
      SetEnabledForEach(EventHandlersVoid, true);
      SetEnabledForEach(EventHandlersWrite, true);
    }
  }

  /** Visits every entry of a handler map and sets its enabled flag. */
  method SetEnabledForEach(handlers: map<string, Command>, enabled: bool)
    modifies handlers.Values
    ensures forall n :: n in handlers ==> handlers[n].Enabled == enabled
  {
    var rest := handlers.Keys;
    while rest != {}
      invariant rest <= handlers.Keys
      invariant forall n :: n in handlers && n !in rest ==> handlers[n].Enabled == enabled
      decreases rest
    {
      var n :| n in rest;
      handlers[n].Enabled := enabled;
      rest := rest - {n};
    }
  }
}
