/**
 * A void command made of other void commands, used to reach several interfaces with one call.
 * The composite refers to its members without owning them.
 */
module MulticastCommands {

  import opened Commands

  /**
   * Aggregate result of executing members whose own results are results(c): Ok when all are,
   * otherwise the first result that is not Ok.
   */
  function Aggregate(members: seq<Command>, results: Command -> ReturnType): ReturnType
  {
    if members == [] then Ok
    else if results(members[0]) != Ok then results(members[0])
    else Aggregate(members[1..], results)
  }

  /** Aggregate is Ok exactly when every member is, and otherwise is the earliest failure. */
  lemma {:induction false} AggregateSpec(members: seq<Command>, results: Command -> ReturnType)
    ensures Aggregate(members, results) == Ok <==> forall i :: 0 <= i < |members| ==> results(members[i]) == Ok
    ensures Aggregate(members, results) != Ok ==>
              exists k :: 0 <= k < |members| && Aggregate(members, results) == results(members[k])
                && forall i :: 0 <= i < k ==> results(members[i]) == Ok
  {
    if members != [] {
      AggregateSpec(members[1..], results);
      if results(members[0]) == Ok && Aggregate(members, results) != Ok {
        var k :| 0 <= k < |members[1..]| && Aggregate(members[1..], results) == results(members[1..][k])
                 && forall i :: 0 <= i < k ==> results(members[1..][i]) == Ok;
        assert Aggregate(members, results) == results(members[k + 1]);
      }
      if results(members[0]) == Ok {
        assert forall i :: 0 < i < |members| ==> members[i] == members[1..][i - 1];
      }
    }
  }

  class MulticastCommandVoid {
    const Name: string
    /** The member commands, in the order they were added. */
    var Commands: seq<Command>

    constructor (name: string)
      ensures Name == name && Commands == []
    {
      Name := name;
      Commands := [];
    }

    /** Appends one member; the members already there keep their place and no command changes. */
    method AddCommand(command: Command)
      modifies this`Commands
      ensures Commands == old(Commands) + [command]
    {
      Commands := Commands + [command];
    }

    /**
     * Executes every member once, in order, whatever the results of earlier ones; results gives
     * what each member's own execution returns. Returns the members in the order they ran and the
     * aggregate result.
     */
    method Execute(results: Command -> ReturnType) returns (executed: seq<Command>, result: ReturnType)
      ensures executed == Commands
      ensures result == Ok <==> forall i :: 0 <= i < |Commands| ==> results(Commands[i]) == Ok
      ensures result != Ok ==>
                exists k :: 0 <= k < |Commands| && result == results(Commands[k])
                  && forall i :: 0 <= i < k ==> results(Commands[i]) == Ok
    {
      executed := [];
      result := Ok;
      var index := 0;
      while index < |Commands|
        invariant 0 <= index <= |Commands|
        invariant executed == Commands[..index]
        invariant result == Aggregate(Commands[..index], results)
      {
        var memberResult := results(Commands[index]);
        executed := executed + [Commands[index]];
        AggregateSnoc(Commands[..index], Commands[index], results);
        assert Commands[..index + 1] == Commands[..index] + [Commands[index]];
        if result == Ok {
          result := memberResult;
        }
        index := index + 1;
      }
      assert Commands[..index] == Commands;
      AggregateSpec(Commands, results);
    }
  }

  /** Executing one more member changes the aggregate only while it is still Ok. */
  lemma {:induction false} AggregateSnoc(members: seq<Command>, c: Command, results: Command -> ReturnType)
    ensures Aggregate(members + [c], results) ==
              if Aggregate(members, results) == Ok then results(c) else Aggregate(members, results)
  {
    if members == [] {
      assert [c][1..] == [];
    } else {
      assert (members + [c])[1..] == members[1..] + [c];
      AggregateSnoc(members[1..], c, results);
    }
  }
}
