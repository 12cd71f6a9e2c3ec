/** `struct command` and its growable, NULL-padded argument array. */
module Command {
  import opened Wrappers

  /** The value a parsed command denotes: the program name, the argument
      list (the program name first), the redirection targets and the
      background flag. */
  datatype CommandValue = CommandValue(
    command: string,
    arguments: seq<string>,
    inputFile: Option<string>,
    outputFile: Option<string>,
    isBackground: bool)

  predicate AllPresent(s: seq<Option<string>>) {
    forall i :: 0 <= i < |s| ==> s[i].Some?
  }

  /** The strings held by a run of non-NULL slots. */
  function Unwrap(s: seq<Option<string>>): (r: seq<string>)
    requires AllPresent(s)
    ensures |r| == |s|
    ensures forall i :: 0 <= i < |s| ==> s[i] == Some(r[i])
  {
    if |s| == 0 then [] else [s[0].value] + Unwrap(s[1..])
  }

  /** Capacity of a freshly parsed command's argument array. */
  const InitialCapacity: nat := 2

  /** `struct command`. A `None` slot of `argumentsArray` is a NULL pointer. */
  class CommandStruct {
    var command: string
    var argumentsArray: array<Option<string>>
    var numArguments: nat
    var argumentCapacity: nat
    var inputFile: Option<string>
    var outputFile: Option<string>
    var isBackground: bool

    /** The arguments fill the first `numArguments` slots, and every slot
        after them up to the capacity is NULL — so at least one NULL
        follows the last argument, as `execvp` requires. */
    ghost predicate Valid()
      reads this, argumentsArray
    {
      argumentsArray.Length == argumentCapacity &&
      1 <= numArguments < argumentCapacity &&
      (forall i :: 0 <= i < numArguments ==> argumentsArray[i].Some?) &&
      (forall i :: numArguments <= i < argumentCapacity ==> argumentsArray[i] == None)
    }

    /** The argument list ends in a NULL slot. */
    predicate NullTerminated()
      reads this, argumentsArray
    {
      numArguments < argumentsArray.Length && argumentsArray[numArguments] == None
    }

    function Arguments(): (args: seq<string>)
      reads this, argumentsArray
      requires Valid()
      ensures |args| == numArguments
    {
      Unwrap(argumentsArray[..numArguments])
    }

    function Value(): CommandValue
      reads this, argumentsArray
      requires Valid()
    {
      CommandValue(command, Arguments(), inputFile, outputFile, isBackground)
    }

    /** The start of `parseCommand`: an array of capacity 2 filled with
        NULL, no redirections, foreground; the first token is stored both
        as the command and as the first argument. */
    constructor (token: string)
      ensures Valid() && fresh(argumentsArray) && NullTerminated()
      ensures command == token && Arguments() == [token]
      ensures argumentCapacity == InitialCapacity
      ensures inputFile == None && outputFile == None && !isBackground
    {
      var arr := new Option<string>[InitialCapacity];
      var i := 0;
      while i < InitialCapacity
        invariant 0 <= i <= InitialCapacity
        invariant forall j :: 0 <= j < i ==> arr[j] == None
      {
        arr[i] := None;
        i := i + 1;
      }
      arr[0] := Some(token);
      argumentsArray := arr;
      argumentCapacity := InitialCapacity;
      inputFile, outputFile, isBackground := None, None, false;
      command := token;
      numArguments := 1;
      new;
      assert argumentsArray[..numArguments] == [Some(token)];
    }

    /** `addArgument`: appends one argument, doubling the capacity (into a
        new array holding the old entries and NULL everywhere else) when
        the incremented count reaches it. */
    method AddArgument(argument: string)
      requires Valid()
      modifies this, argumentsArray
      ensures Valid() && NullTerminated()
      ensures numArguments == old(numArguments) + 1
      ensures Arguments() == old(Arguments()) + [argument]
      ensures argumentCapacity ==
        if old(numArguments) + 1 >= old(argumentCapacity) then 2 * old(argumentCapacity)
        else old(argumentCapacity)
      ensures argumentsArray == old(argumentsArray) || fresh(argumentsArray)
      ensures command == old(command) && inputFile == old(inputFile)
      ensures outputFile == old(outputFile) && isBackground == old(isBackground)
    {
      ghost var before := argumentsArray[..numArguments];
      numArguments := numArguments + 1;
      if numArguments >= argumentCapacity {
        argumentCapacity := argumentCapacity * 2;
        argumentsArray := Regrow(argumentsArray, numArguments - 1, argumentCapacity);
      }
      argumentsArray[numArguments - 1] := Some(argument);
      assert argumentsArray[..numArguments] == before + [Some(argument)];
      assert Arguments() == Unwrap(before) + [argument];
    }

    /** An `&` that is not the last token: the background flag is cleared
        again and the `&` and the token after it become two arguments. */
    method AddEmbeddedAmpersand(next: string)
      requires Valid()
      modifies this, argumentsArray
      ensures Valid() && NullTerminated()
      ensures Value() == old(Value()).(isBackground := false, arguments := old(Arguments()) + ["&", next])
      ensures argumentsArray == old(argumentsArray) || fresh(argumentsArray)
    {
      isBackground := false;
      AddArgument("&");
      AddArgument(next);
      assert old(Arguments()) + ["&"] + [next] == old(Arguments()) + ["&", next];
    }
  }

  /** The reallocation inside `addArgument`: a new array of the doubled
      capacity receiving the `kept` old entries, with every slot after
      slot `kept` set to NULL (slot `kept` itself is written by the caller
      right afterwards). */
  method Regrow(source: array<Option<string>>, kept: nat, capacity: nat) returns (grown: array<Option<string>>)
    requires kept <= source.Length && kept < capacity
    ensures fresh(grown) && grown.Length == capacity
    ensures grown[..kept] == source[..kept]
    ensures forall j :: kept < j < capacity ==> grown[j] == None
  {
    grown := new Option<string>[capacity];
    var i := 0;
    while i < kept
      invariant 0 <= i <= kept
      invariant forall j :: 0 <= j < i ==> grown[j] == source[j]
    {
      grown[i] := source[i];
      i := i + 1;
    }
    i := kept + 1;
    while i < capacity
      invariant kept + 1 <= i <= capacity
      invariant grown[..kept] == source[..kept]
      invariant forall j :: kept < j < i ==> grown[j] == None
    {
      grown[i] := None;
      i := i + 1;
    }
  }
}
