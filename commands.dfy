/**
 * Command objects as the interfaces see them: a named object with an enabled flag. What a
 * command's body does is outside the model; a command records only which user code it runs
 * directly, or which mailbox and which actual command a queued command forwards to.
 */
module Commands {

  /** Result of executing a command. */
  datatype ReturnType = Ok | Disabled | NotBound | ArgumentError

  /** A mailbox, identified only; its queue is not part of the model. */
  datatype MailBox = MailBox(id: nat)

  /** User code a command runs: a method of some object, or a free function. */
  datatype Callable = ClassMethod(instance: nat, member: nat) | FreeFunction(address: nat)

  datatype CommandKind =
    | Direct(body: Callable)
      // a queued void command posts the actual command to the mailbox
    | QueuedVoid(mailBox: MailBox, actual: Command)
      // a queued write command also copies its argument into a buffer of that many slots
    | QueuedWrite(mailBox: MailBox, actual: Command, argumentBufferLength: nat)

  class Command {
    const Name: string
    const Kind: CommandKind
    var Enabled: bool

    constructor (name: string, kind: CommandKind)
      ensures Name == name && Kind == kind && Enabled
    {
      Name := name;
      Kind := kind;
      Enabled := true;
    }

    method Enable()
      modifies this
      ensures Enabled
    {
      Enabled := true;
    }

    method Disable()
      modifies this
      ensures !Enabled
    {
      Enabled := false;
    }
  }
}
