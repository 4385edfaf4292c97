/**
 * The parameter bookkeeping of Ceen.Database's DbSupport helpers: a
 * command's positional parameter list is resized to an exact length, sized
 * from the number of `?` placeholders in the command text, and filled with
 * values by position. A command is a value; the connection is represented
 * by the blank command its provider creates.
 */
module DbSupport {
  import opened Text

  datatype Transaction = Transaction(id: nat)

  /** A command parameter: its provider-side name, if any, and its value (null when unset). */
  datatype Parameter<V> = Parameter(name: Option<string>, value: Option<V>)

  datatype Command<V> = Command(
    text: Option<string>,
    transaction: Option<Transaction>,
    parameters: seq<Parameter<V>>)

  /**
   * The exceptions the helpers throw: on bad arguments, with the argument's
   * name, and on calling `CreateCommand` through a null connection.
   */
  datatype DbError = ArgumentNull(paramName: string) | ArgumentOutOfRange(paramName: string) | NullReference

  datatype Result<T> = Ok(value: T) | Err(error: DbError)

  /** What `cmd.CreateParameter()` yields: no name, no value. */
  function NewParameter<V>(): Parameter<V> {
    Parameter(None, None)
  }

  /**
   * The parameter list after resizing to `n`: a list no longer than `n` is
   * kept and topped up with new parameters; a longer one is discarded and
   * rebuilt from new parameters.
   */
  function Resized<V>(ps: seq<Parameter<V>>, n: nat): (r: seq<Parameter<V>>)
    ensures |r| == n
    ensures |ps| <= n ==> r[..|ps|] == ps
    ensures forall i :: (if |ps| <= n then |ps| else 0) <= i < n ==> r[i] == NewParameter()
  {
    var kept := if |ps| > n then [] else ps;
    kept + seq(n - |kept|, _ => NewParameter())
  }

  /** Resizing twice to the same length is resizing once. */
  lemma ResizedIdempotent<V>(ps: seq<Parameter<V>>, n: nat)
    ensures Resized(Resized(ps, n), n) == Resized(ps, n)
  {
    var once := Resized(ps, n);
    assert once[..|once|] == once;
  }

  /** DbSupport.AddParameters. */
  method AddParameters<V>(cmd: Option<Command<V>>, count: int) returns (r: Result<Command<V>>)
    ensures cmd.None? ==> r == Err(ArgumentNull("cmd"))
    ensures cmd.Some? && count < 0 ==> r == Err(ArgumentOutOfRange("count"))
    ensures cmd.Some? && count >= 0 ==> r == Ok(cmd.value.(parameters := Resized(cmd.value.parameters, count)))
  {
    if cmd.None? {
      return Err(ArgumentNull("cmd"));
    }
    if count < 0 {
      return Err(ArgumentOutOfRange("count"));
    }
    var ps := cmd.value.parameters;
    if |ps| > count {
      ps := [];
    }
    ghost var kept := ps;
    var i := |ps|;
    while i < count
      invariant |kept| <= i <= count
      invariant |ps| == i
      invariant ps == kept + seq(i - |kept|, _ => NewParameter())
    {
      ps := ps + [NewParameter()];
      i := i + 1;
    }
    return Ok(cmd.value.(parameters := ps));
  }

  /**
   * DbSupport.SetParameterValues (both overloads). A null value list counts
   * as empty; parameter `i` receives value `i`, keeping its other attributes.
   */
  method SetParameterValues<V>(cmd: Option<Command<V>>, values: Option<seq<Option<V>>>) returns (r: Result<Command<V>>)
    ensures cmd.None? ==> r == Err(ArgumentNull("cmd"))
    ensures cmd.Some? ==>
      var vs := if values.None? then [] else values.value;
      var resized := Resized(cmd.value.parameters, |vs|);
      && r.Ok?
      && r.value.text == cmd.value.text
      && r.value.transaction == cmd.value.transaction
      && |r.value.parameters| == |vs|
      && forall i :: 0 <= i < |vs| ==>
           r.value.parameters[i].value == vs[i] && r.value.parameters[i].name == resized[i].name
  {
    if cmd.None? {
      return Err(ArgumentNull("cmd"));
    }
    var vs := if values.None? then [] else values.value;
    var sized := AddParameters(cmd, |vs|);
    var c := sized.value;
    var ps := c.parameters;
    var i := 0;
    while i < |vs|
      invariant 0 <= i <= |vs| == |ps|
      invariant forall j :: 0 <= j < i ==> ps[j] == c.parameters[j].(value := vs[j])
      invariant forall j :: i <= j < |vs| ==> ps[j] == c.parameters[j]
    {
      ps := ps[i := ps[i].(value := vs[i])];
      i := i + 1;
    }
    return Ok(c.(parameters := ps));
  }

  /**
   * The `IDbConnection.CreateCommand` extension: the connection's new command,
   * with text and transaction set only when non-null.
   */
  function CreateCommand<V>(connection: Option<Command<V>>, command: Option<string>, transaction: Option<Transaction>)
    : (r: Result<Command<V>>)
    ensures r.Err? <==> connection.None?
    ensures r.Err? ==> r.error == NullReference
    ensures r.Ok? ==>
      && r.value.parameters == connection.value.parameters
      && r.value.text == (if command.Some? then command else connection.value.text)
      && r.value.transaction == (if transaction.Some? then transaction else connection.value.transaction)
  {
    match connection
    case None => Err(NullReference)
    case Some(blank) =>
      var withTransaction := if transaction.Some? then blank.(transaction := transaction) else blank;
      Ok(if command.Some? then withTransaction.(text := command) else withTransaction)
  }

  /**
   * DbSupport.SetupCommand: rejects null or white-space text, then needs a
   * connection; the command is the one CreateCommand makes, with its
   * parameter list resized (as AddParameters does) to one per `?`.
   */
  function SetupCommand<V>(connection: Option<Command<V>>, commandText: Option<string>, transaction: Option<Transaction>)
    : (r: Result<Command<V>>)
    ensures IsNullOrWhiteSpace(commandText) <==> r == Err(ArgumentNull("commandtext"))
    ensures !IsNullOrWhiteSpace(commandText) && connection.None? ==> r == Err(NullReference)
    ensures r.Ok? <==> !IsNullOrWhiteSpace(commandText) && connection.Some?
    ensures r.Ok? ==>
      var blank := connection.value;
      && r.value == CreateCommand(connection, commandText, transaction).value.(
           parameters := Resized(blank.parameters, multiset(commandText.value)['?']))
      && r.value.text == commandText
      && r.value.transaction == (if transaction.Some? then transaction else blank.transaction)
      && |r.value.parameters| == multiset(commandText.value)['?']
      && (|blank.parameters| <= |r.value.parameters| ==> r.value.parameters[..|blank.parameters|] == blank.parameters)
  {
    if IsNullOrWhiteSpace(commandText) then Err(ArgumentNull("commandtext"))
    else if connection.None? then Err(NullReference)
    else
      var cmd := connection.value.(text := commandText);
      var cmd' := if transaction.Some? then cmd.(transaction := transaction) else cmd;
      CountIsMultiplicity(commandText.value, '?');
      Ok(cmd'.(parameters := Resized(cmd'.parameters, Count(commandText.value, '?'))))
  }

  /**
   * DbSupport.CreateCommandWithParameters: rejects only null text (white
   * space is accepted), then creates the command through CreateCommand and
   * resizes its parameter list to one per `?`.
   */
  function CreateCommandWithParameters<V>(connection: Option<Command<V>>, command: Option<string>, transaction: Option<Transaction>)
    : (r: Result<Command<V>>)
    ensures command.None? <==> r == Err(ArgumentNull("command"))
    ensures command.Some? && connection.None? ==> r == Err(NullReference)
    ensures r.Ok? <==> command.Some? && connection.Some?
    ensures r.Ok? ==>
      && r.value == CreateCommand(connection, command, transaction).value.(
           parameters := Resized(connection.value.parameters, multiset(command.value)['?']))
      && r.value.text == command
      && r.value.transaction == (if transaction.Some? then transaction else connection.value.transaction)
      && |r.value.parameters| == multiset(command.value)['?']
  {
    if command.None? then Err(ArgumentNull("command"))
    else
      match CreateCommand(connection, command, transaction)
      case Err(e) => Err(e)
      case Ok(cmd) =>
        CountIsMultiplicity(command.value, '?');
        Ok(cmd.(parameters := Resized(cmd.parameters, Count(command.value, '?'))))
  }

  /**
   * The two ways of preparing a command agree on text that is not white
   * space; on white-space text through a live connection, SetupCommand
   * refuses what CreateCommandWithParameters accepts.
   */
  lemma SetupAgreesWithCreateCommandWithParameters<V>(
    connection: Option<Command<V>>, text: Option<string>, transaction: Option<Transaction>)
    ensures !IsNullOrWhiteSpace(text) ==>
      SetupCommand(connection, text, transaction) == CreateCommandWithParameters(connection, text, transaction)
    ensures text.Some? && IsNullOrWhiteSpace(text) && connection.Some? ==>
      && SetupCommand(connection, text, transaction) == Err(ArgumentNull("commandtext"))
      && CreateCommandWithParameters(connection, text, transaction).Ok?
  {
  }
}
