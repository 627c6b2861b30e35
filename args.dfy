/** The injectors' user-supplied argument lists (`fault_args`,
    `fault_pattern_args`) and the exceptions that reading them raises.
    An argument list is `None` or a list; an integer the caller put in a
    list is represented by its decimal text, which `int()` and `str()` treat
    alike (`Text.ParseIntOfIntToString`). */
module Args {
  import opened Wrappers
  import opened Text

  /** What an exception is about. */
  datatype Operand = PatternArgs | FaultArgs | TargetProtocol | ShellCommand | StartCommand

  /** The exceptions the modelled code can raise. */
  datatype Error =
    | IndexError(list: Operand, index: nat)  // list[index] on a list that is too short
    | NoneError(operand: Operand)            // len(), indexing, `in` or a method call on None
    | ValueError(text: string)               // int(text) on a text that is not an integer
    | KeyError(key: string)                  // a protocol name missing from the protocol table
    | PlaceholderError(count: nat)           // str.format with more `{}` than values
    | ZeroDivisionError                      // a run time divided by a zero period or step length

  type ArgList = Option<seq<string>>

  /** `args[i]` */
  function ArgAt(args: ArgList, i: nat, which: Operand): (r: Result<string, Error>)
    ensures r.Success? <==> args.Some? && i < |args.value|
    ensures r.Success? ==> r.value == args.value[i]
    ensures r.Failure? ==> r.error == (if args.None? then NoneError(which) else IndexError(which, i))
  {
    match args
    case None => Failure(NoneError(which))
    case Some(xs) => if i < |xs| then Success(xs[i]) else Failure(IndexError(which, i))
  }

  /** `len(args)` */
  function ArgCount(args: ArgList, which: Operand): (r: Result<nat, Error>)
    ensures r.Success? <==> args.Some?
    ensures r.Success? ==> r.value == |args.value|
  {
    match args
    case None => Failure(NoneError(which))
    case Some(xs) => Success(|xs|)
  }

  /** `int(text)` */
  function ToInt(text: string): (r: Result<int, Error>)
    ensures r.Success? <==> ParseInt(text).Some?
    ensures r.Success? ==> ParseInt(text) == Some(r.value)
    ensures r.Failure? ==> r.error == ValueError(text)
  {
    match ParseInt(text)
    case None => Failure(ValueError(text))
    case Some(n) => Success(n)
  }

  /** `int(str(n)) == n`, lifted to `ToInt`. */
  lemma ToIntOfIntToString(n: int)
    ensures ToInt(IntToString(n)) == Success(n)
  {
    ParseIntOfIntToString(n);
  }

  /** Python truthiness of a list: neither None nor empty. */
  predicate Truthy(args: ArgList) {
    args.Some? && |args.value| > 0
  }

  /** The timing a node or multi-fault burst reads from its pattern
      arguments, in milliseconds: the duration and the period of a burst,
      1000 and 2000 without two arguments. A period of 0 divides the
      injection time by zero. */
  function BurstTiming(patternArgs: ArgList): (r: Result<(int, int), Error>)
    ensures patternArgs.None? ==> r == Failure(NoneError(PatternArgs))
    ensures patternArgs.Some? && |patternArgs.value| < 2 ==> r == Success((1000, 2000))
    ensures patternArgs.Some? && |patternArgs.value| >= 2 ==>
      (r.Success? <==> ParseInt(patternArgs.value[0]).Some? && ParseInt(patternArgs.value[1]).Some?
                       && ParseInt(patternArgs.value[1]) != Some(0))
    ensures r.Success? && |patternArgs.value| >= 2 ==>
      r.value == (ParseInt(patternArgs.value[0]).value, ParseInt(patternArgs.value[1]).value)
    ensures r.Success? ==> r.value.1 != 0
  {
    var count :- ArgCount(patternArgs, PatternArgs);
    if count < 2 then Success((1000, 2000))
    else
      var duration :- ToInt(patternArgs.value[0]);
      var period :- ToInt(patternArgs.value[1]);
      if period == 0 then Failure(ZeroDivisionError) else Success((duration, period))
  }
}
