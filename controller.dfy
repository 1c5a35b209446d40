/** The command front end: one text line in, one text reply out. A line is
    split into DOMAIN OPERATION ARGS..., the keywords are matched without
    regard to case, the argument count, identifiers and quantity are checked
    in that order, and only then is the service called. Every error that
    reaches the top becomes "ERR: <message>".

    Parsing and formatting are functions on values; the controller object at
    the end drives a `WarehouseService` and is proved to follow `Execute`. */
module Controller {
  import opened Text
  import opened Errors
  import opened Models
  import opened Service

  const MsgOk := "OK"
  const MsgEmpty := "EMPTY"
  const ErrPrefix := "ERR"

  // ---------------------------------------------------------------------------
  // Replies
  // ---------------------------------------------------------------------------

  /** `_format_error` */
  function FormatError(message: string): (r: string)
    ensures |r| == |message| + 5 && r[..5] == "ERR: " && r[5..] == message
  {
    ErrPrefix + ": " + message
  }

  /** What `execute_command` answers for an exception that reaches it: the
      warehouse errors and `ValueError` show their own message, anything
      else is reported as unexpected. */
  function ErrorReply(e: Error): (r: string)
    ensures |r| >= 5 && r[..5] == "ERR: "
    ensures e.IsWarehouseError() || e.ValueError? ==> r[5..] == Message(e)
    ensures e.KeyError? ==> r[5..] == "Unexpected error: " + Message(e)
  {
    if e.IsWarehouseError() || e.ValueError? then FormatError(Message(e))
    else FormatError("Unexpected error: " + Message(e))
  }

  /** The reply to a mutating call: "OK" when it went through. */
  function Respond(o: Outcome): (r: string)
    ensures r == MsgOk <==> o.Done?
    ensures o.Failed? ==> r == ErrorReply(o.error)
    ensures r != []
  {
    match o
    case Done => MsgOk
    case Failed(e) => ErrorReply(e)
  }

  // ---------------------------------------------------------------------------
  // Arguments
  // ---------------------------------------------------------------------------

  /** `_validate_identifier`: hands the identifier back when it is accepted. */
  function ValidateIdentifier(identifier: string, paramName: string): (r: Result<string>)
    ensures r.Ok? <==> IsIdentifier(identifier)
    ensures r.Ok? ==> r.value == identifier
    ensures identifier == [] ==> r == Err(InvalidCommand(paramName + " cannot be empty"))
    ensures identifier != [] && !IsIdentifier(identifier) ==>
      r == Err(InvalidCommand(paramName + " must be alphanumeric (underscores allowed)"))
  {
    if identifier == [] then Err(InvalidCommand(paramName + " cannot be empty"))
    else if !IsAlnum(WithoutUnderscores(identifier)) then
      Err(InvalidCommand(paramName + " must be alphanumeric (underscores allowed)"))
    else Ok(identifier)
  }

  /** `_parse_quantity`: an integer token that is > 0. */
  function ParseQuantity(text: string): (r: Result<int>)
    ensures r.Ok? <==> ParseInt(text).Some? && ParseInt(text).value > 0
    ensures r.Ok? ==> r.value > 0 && ParseInt(text) == Some(r.value)
    ensures ParseInt(text).None? ==>
      r == Err(InvalidCommand("Invalid quantity: '" + text + "' is not an integer"))
    ensures ParseInt(text).Some? && ParseInt(text).value <= 0 ==>
      r == Err(InvalidCommand("Quantity must be a positive integer"))
  {
    match ParseInt(text)
    case None => Err(InvalidCommand("Invalid quantity: '" + text + "' is not an integer"))
    case Some(q) => if q <= 0 then Err(InvalidCommand("Quantity must be a positive integer")) else Ok(q)
  }

  /** Every positive quantity, printed, is read back as itself. */
  lemma QuantityRoundTrip(q: int)
    requires q > 0
    ensures ParseQuantity(IntToString(q)) == Ok(q)
  {
    ParseIntToString(q);
  }

  // ---------------------------------------------------------------------------
  // Commands
  // ---------------------------------------------------------------------------

  /** A command that passed every check, ready for the service. */
  datatype Command =
    | LocationRegister(locationId: string)
    | LocationUnregister(locationId: string)
    | InventoryIncrement(locationId: string, itemId: string, quantity: int)
    | InventoryDecrement(locationId: string, itemId: string, quantity: int)
    | InventoryTransfer(source: string, destination: string, itemId: string, quantity: int)
    | InventoryObserve(locationId: string)

  /** Every identifier argument is an identifier and every quantity is > 0. */
  predicate WellFormed(cmd: Command) {
    match cmd
    case LocationRegister(l) => IsIdentifier(l)
    case LocationUnregister(l) => IsIdentifier(l)
    case InventoryIncrement(l, i, q) => IsIdentifier(l) && IsIdentifier(i) && q > 0
    case InventoryDecrement(l, i, q) => IsIdentifier(l) && IsIdentifier(i) && q > 0
    case InventoryTransfer(a, b, i, q) => IsIdentifier(a) && IsIdentifier(b) && IsIdentifier(i) && q > 0
    case InventoryObserve(l) => IsIdentifier(l)
  }

  /** The keywords that select a command. */
  function Domain(cmd: Command): string {
    if cmd.LocationRegister? || cmd.LocationUnregister? then "LOCATION" else "INVENTORY"
  }

  function Operation(cmd: Command): string {
    match cmd
    case LocationRegister(_) => "REGISTER"
    case LocationUnregister(_) => "UNREGISTER"
    case InventoryIncrement(_, _, _) => "INCREMENT"
    case InventoryDecrement(_, _, _) => "DECREMENT"
    case InventoryTransfer(_, _, _, _) => "TRANSFER"
    case InventoryObserve(_) => "OBSERVE"
  }

  /** A command's arguments as tokens, the quantity printed in decimal. */
  function Arguments(cmd: Command): seq<string> {
    match cmd
    case LocationRegister(l) => [l]
    case LocationUnregister(l) => [l]
    case InventoryIncrement(l, i, q) => [l, i, IntToString(q)]
    case InventoryDecrement(l, i, q) => [l, i, IntToString(q)]
    case InventoryTransfer(a, b, i, q) => [a, b, i, IntToString(q)]
    case InventoryObserve(l) => [l]
  }

  /** The canonical tokens of a command: upper-case keywords, then the arguments. */
  function Render(cmd: Command): seq<string> {
    [Domain(cmd), Operation(cmd)] + Arguments(cmd)
  }

  /** The command carries exactly the line's argument tokens, in order, the
      quantity token read as an integer. */
  predicate Matches(cmd: Command, args: seq<string>) {
    match cmd
    case LocationRegister(l) => args == [l]
    case LocationUnregister(l) => args == [l]
    case InventoryIncrement(l, i, q) =>
      |args| == 3 && args[0] == l && args[1] == i && ParseInt(args[2]) == Some(q)
    case InventoryDecrement(l, i, q) =>
      |args| == 3 && args[0] == l && args[1] == i && ParseInt(args[2]) == Some(q)
    case InventoryTransfer(a, b, i, q) =>
      |args| == 4 && args[0] == a && args[1] == b && args[2] == i && ParseInt(args[3]) == Some(q)
    case InventoryObserve(l) => args == [l]
  }

  /** The number of arguments each DOMAIN OPERATION takes; None for a pair
      the controller does not know. */
  function ArgumentCount(domain: string, operation: string): (r: Option<nat>)
    ensures r.Some? ==> (domain == "LOCATION" || domain == "INVENTORY") && 1 <= r.value <= 4
  {
    if domain == "LOCATION" && (operation == "REGISTER" || operation == "UNREGISTER") then Some(1)
    else if domain == "INVENTORY" && (operation == "INCREMENT" || operation == "DECREMENT") then Some(3)
    else if domain == "INVENTORY" && operation == "TRANSFER" then Some(4)
    else if domain == "INVENTORY" && operation == "OBSERVE" then Some(1)
    else None
  }

  /** "<DOMAIN> <OPERATION> requires N argument(s), got M" */
  function ArityError(domain: string, operation: string, expected: nat, got: nat): (r: Error)
    ensures r.InvalidCommand? && domain + " " + operation + " requires " <= r.detail
  {
    InvalidCommand(domain + " " + operation + " requires " + IntToString(expected)
      + (if expected == 1 then " argument" else " arguments") + ", got " + IntToString(got))
  }

  /** `_handle_location_command` up to the service call. */
  function ParseLocationCommand(operation: string, args: seq<string>): (r: Result<Command>)
    ensures r.Ok? ==> WellFormed(r.value) && ArgumentCount("LOCATION", operation) == Some(|args|)
    ensures r.Ok? ==>
      Domain(r.value) == "LOCATION" && Operation(r.value) == operation && Matches(r.value, args)
    ensures ArgumentCount("LOCATION", operation).None? ==>
      r == Err(InvalidCommand("Unknown LOCATION operation: " + operation))
    ensures ArgumentCount("LOCATION", operation).Some? && ArgumentCount("LOCATION", operation).value != |args| ==>
      r == Err(ArityError("LOCATION", operation, ArgumentCount("LOCATION", operation).value, |args|))
    ensures ArgumentCount("LOCATION", operation) == Some(|args|) ==>
      && (r.Ok? <==> IsIdentifier(args[0]))
      && (!IsIdentifier(args[0]) ==> r == Err(ValidateIdentifier(args[0], "location_id").error))
  {
    if operation == "REGISTER" then
      if |args| != 1 then Err(ArityError("LOCATION", "REGISTER", 1, |args|))
      else
        var l :- ValidateIdentifier(args[0], "location_id");
        Ok(LocationRegister(l))
    else if operation == "UNREGISTER" then
      if |args| != 1 then Err(ArityError("LOCATION", "UNREGISTER", 1, |args|))
      else
        var l :- ValidateIdentifier(args[0], "location_id");
        Ok(LocationUnregister(l))
    else Err(InvalidCommand("Unknown LOCATION operation: " + operation))
  }

  /** `_handle_inventory_command` up to the service call. */
  function ParseInventoryCommand(operation: string, args: seq<string>): (r: Result<Command>)
    ensures r.Ok? ==> WellFormed(r.value) && ArgumentCount("INVENTORY", operation) == Some(|args|)
    ensures r.Ok? ==>
      Domain(r.value) == "INVENTORY" && Operation(r.value) == operation && Matches(r.value, args)
    ensures ArgumentCount("INVENTORY", operation).None? ==>
      r == Err(InvalidCommand("Unknown INVENTORY operation: " + operation))
    ensures ArgumentCount("INVENTORY", operation).Some? && ArgumentCount("INVENTORY", operation).value != |args| ==>
      r == Err(ArityError("INVENTORY", operation, ArgumentCount("INVENTORY", operation).value, |args|))
    ensures (operation == "INCREMENT" || operation == "DECREMENT") && |args| == 3 ==>
      && (r.Ok? <==> IsIdentifier(args[0]) && IsIdentifier(args[1]) && ParseQuantity(args[2]).Ok?)
      && (!IsIdentifier(args[0]) ==> r == Err(ValidateIdentifier(args[0], "location_id").error))
      && (IsIdentifier(args[0]) && !IsIdentifier(args[1]) ==>
            r == Err(ValidateIdentifier(args[1], "item_id").error))
      && (IsIdentifier(args[0]) && IsIdentifier(args[1]) && ParseQuantity(args[2]).Err? ==>
            r == Err(ParseQuantity(args[2]).error))
    ensures operation == "TRANSFER" && |args| == 4 ==>
      && (r.Ok? <==>
            IsIdentifier(args[0]) && IsIdentifier(args[1]) && IsIdentifier(args[2]) && ParseQuantity(args[3]).Ok?)
      && (!IsIdentifier(args[0]) ==> r == Err(ValidateIdentifier(args[0], "source_location_id").error))
      && (IsIdentifier(args[0]) && !IsIdentifier(args[1]) ==>
            r == Err(ValidateIdentifier(args[1], "destination_location_id").error))
      && (IsIdentifier(args[0]) && IsIdentifier(args[1]) && !IsIdentifier(args[2]) ==>
            r == Err(ValidateIdentifier(args[2], "item_id").error))
      && (IsIdentifier(args[0]) && IsIdentifier(args[1]) && IsIdentifier(args[2]) && ParseQuantity(args[3]).Err? ==>
            r == Err(ParseQuantity(args[3]).error))
    ensures operation == "OBSERVE" && |args| == 1 ==>
      && (r.Ok? <==> IsIdentifier(args[0]))
      && (!IsIdentifier(args[0]) ==> r == Err(ValidateIdentifier(args[0], "location_id").error))
  {
    if operation == "INCREMENT" then
      if |args| != 3 then Err(ArityError("INVENTORY", "INCREMENT", 3, |args|))
      else
        var l :- ValidateIdentifier(args[0], "location_id");
        var i :- ValidateIdentifier(args[1], "item_id");
        var q :- ParseQuantity(args[2]);
        Ok(InventoryIncrement(l, i, q))
    else if operation == "DECREMENT" then
      if |args| != 3 then Err(ArityError("INVENTORY", "DECREMENT", 3, |args|))
      else
        var l :- ValidateIdentifier(args[0], "location_id");
        var i :- ValidateIdentifier(args[1], "item_id");
        var q :- ParseQuantity(args[2]);
        Ok(InventoryDecrement(l, i, q))
    else if operation == "TRANSFER" then
      if |args| != 4 then Err(ArityError("INVENTORY", "TRANSFER", 4, |args|))
      else
        var a :- ValidateIdentifier(args[0], "source_location_id");
        var b :- ValidateIdentifier(args[1], "destination_location_id");
        var i :- ValidateIdentifier(args[2], "item_id");
        var q :- ParseQuantity(args[3]);
        Ok(InventoryTransfer(a, b, i, q))
    else if operation == "OBSERVE" then
      if |args| != 1 then Err(ArityError("INVENTORY", "OBSERVE", 1, |args|))
      else
        var l :- ValidateIdentifier(args[0], "location_id");
        Ok(InventoryObserve(l))
    else Err(InvalidCommand("Unknown INVENTORY operation: " + operation))
  }

  /** A quantity token with a leading zero or a "+" sign is read as the
      integer `int()` gives, so "007" and "+7" both mean 7. */
  lemma QuantitySpellings(l: string, i: string, d: string)
    requires IsIdentifier(l) && IsIdentifier(i)
    requires d != [] && AllDigits(d) && DigitsValue(d) > 0
    ensures ParseInventoryCommand("INCREMENT", [l, i, "0" + d]) == Ok(InventoryIncrement(l, i, DigitsValue(d)))
    ensures ParseInventoryCommand("INCREMENT", [l, i, "+" + d]) == Ok(InventoryIncrement(l, i, DigitsValue(d)))
  {
    ParseIntLeadingZero(d);
    ParseIntSigned(d);
  }

  /** The two quantity refusals, word for word. */
  lemma QuantityRefusals(l: string, i: string)
    requires IsIdentifier(l) && IsIdentifier(i)
    ensures ParseInventoryCommand("INCREMENT", [l, i, "0"])
         == Err(InvalidCommand("Quantity must be a positive integer"))
    ensures ParseInventoryCommand("INCREMENT", [l, i, "nope"])
         == Err(InvalidCommand("Invalid quantity: 'nope' is not an integer"))
  {
    assert ParseInt("0") == Some(0);
    assert !IsDigit("nope"[0]) && ParseInt("nope") == None;
    assert "Invalid quantity: '" + "nope" + "' is not an integer" == "Invalid quantity: 'nope' is not an integer";
  }

  /** What a line turns into before anything is executed. */
  datatype Parsed = Blank | Rejected(error: Error) | Call(command: Command)

  /** A handler's answer as the parser reports it. */
  function Routed(answer: Result<Command>): Parsed {
    match answer
    case Ok(cmd) => Call(cmd)
    case Err(e) => Rejected(e)
  }

  /** `execute_command` up to the service call. Splitting the stripped line
      gives the same tokens as splitting the line itself. */
  function ParseCommand(line: string): (r: Parsed)
    ensures r.Blank? <==> IsBlank(line)
    ensures r.Call? ==>
      var tokens := Split(line);
      && |tokens| >= 2
      && ArgumentCount(Upper(tokens[0]), Upper(tokens[1])) == Some(|tokens| - 2)
      && WellFormed(r.command)
      && Domain(r.command) == Upper(tokens[0])
      && Operation(r.command) == Upper(tokens[1])
      && Matches(r.command, tokens[2..])
  {
    if IsBlank(line) then Blank
    else
      var tokens := Split(line);
      if |tokens| < 2 then Rejected(InvalidCommand("Command must have at least 2 tokens"))
      else
        var domain := Upper(tokens[0]);
        var operation := Upper(tokens[1]);
        var args := tokens[2..];
        var routed :=
          if domain == "LOCATION" then ParseLocationCommand(operation, args)
          else if domain == "INVENTORY" then ParseInventoryCommand(operation, args)
          else Err(InvalidCommand("Unknown domain: " + domain));
        Routed(routed)
  }

  /** A line of at least two tokens is handed to the handler its domain
      names: whatever that handler accepts becomes a `Call`, and whatever it
      refuses becomes `Rejected` with the handler's own error. */
  lemma RoutedToHandler(line: string)
    requires !IsBlank(line) && |Split(line)| >= 2
    ensures Upper(Split(line)[0]) == "LOCATION" ==>
      ParseCommand(line) == Routed(ParseLocationCommand(Upper(Split(line)[1]), Split(line)[2..]))
    ensures Upper(Split(line)[0]) == "INVENTORY" ==>
      ParseCommand(line) == Routed(ParseInventoryCommand(Upper(Split(line)[1]), Split(line)[2..]))
  {
  }

  /** The line "INVENTORY INCREMENT <l> <i> <q>" parses to whatever the
      INVENTORY handler makes of the three arguments. */
  lemma IncrementLine(l: string, i: string, q: string)
    requires IsIdentifier(l) && IsIdentifier(i) && q != [] && NoSpace(q)
    ensures ParseCommand(Join(["INVENTORY", "INCREMENT", l, i, q], " ")) ==
      Routed(ParseInventoryCommand("INCREMENT", [l, i, q]))
  {
    var words := ["INVENTORY", "INCREMENT", l, i, q];
    var line := Join(words, " ");
    IdentifierHasNoSpace(l);
    IdentifierHasNoSpace(i);
    KeywordWord("INVENTORY");
    KeywordWord("INCREMENT");
    SplitJoin(words);
    BlankIffNoWords(line);
    RoutedToHandler(line);
    assert words[2..] == [l, i, q];
  }

  /** The replies of tests/test_controller.py to a zero and to a non-numeric
      quantity: the handler's refusal reaches the caller word for word, and
      nothing changes or is saved. */
  lemma QuantityRefusalReplies(s: Snapshot, l: string, i: string)
    requires ValidSnapshot(s) && IsIdentifier(l) && IsIdentifier(i)
    ensures Execute(s, Join(["INVENTORY", "INCREMENT", l, i, "0"], " ")) ==
      Reply("ERR: " + "Invalid command: " + "Quantity must be a positive integer", s, [])
    ensures Execute(s, Join(["INVENTORY", "INCREMENT", l, i, "nope"], " ")) ==
      Reply("ERR: " + "Invalid command: " + "Invalid quantity: 'nope' is not an integer", s, [])
  {
    ZeroQuantityReply(s, l, i);
    NonNumericQuantityReply(s, l, i);
  }

  lemma ZeroQuantityReply(s: Snapshot, l: string, i: string)
    requires ValidSnapshot(s) && IsIdentifier(l) && IsIdentifier(i)
    ensures Execute(s, Join(["INVENTORY", "INCREMENT", l, i, "0"], " ")) ==
      Reply("ERR: " + "Invalid command: " + "Quantity must be a positive integer", s, [])
  {
    QuantityRefusals(l, i);
    assert NoSpace("0");
    IncrementRefusalReply(s, l, i, "0", "Quantity must be a positive integer");
  }

  lemma NonNumericQuantityReply(s: Snapshot, l: string, i: string)
    requires ValidSnapshot(s) && IsIdentifier(l) && IsIdentifier(i)
    ensures Execute(s, Join(["INVENTORY", "INCREMENT", l, i, "nope"], " ")) ==
      Reply("ERR: " + "Invalid command: " + "Invalid quantity: 'nope' is not an integer", s, [])
  {
    QuantityRefusals(l, i);
    assert NoSpace("nope");
    IncrementRefusalReply(s, l, i, "nope", "Invalid quantity: 'nope' is not an integer");
  }

  /** An INCREMENT line whose arguments the handler refuses is answered with
      the refusal, and nothing changes. */
  lemma IncrementRefusalReply(s: Snapshot, l: string, i: string, q: string, detail: string)
    requires ValidSnapshot(s) && IsIdentifier(l) && IsIdentifier(i) && q != [] && NoSpace(q)
    requires ParseInventoryCommand("INCREMENT", [l, i, q]) == Err(InvalidCommand(detail))
    ensures Execute(s, Join(["INVENTORY", "INCREMENT", l, i, q], " ")) ==
      Reply("ERR: " + "Invalid command: " + detail, s, [])
  {
    IncrementLine(l, i, q);
    InvalidCommandReply(detail);
  }

  /** Quantities written with leading zeros or a plus sign, as `int()` reads
      them, reach the service with their value. */
  lemma QuantitySpellingLines(s: Snapshot, l: string, i: string, d: string)
    requires ValidSnapshot(s) && IsIdentifier(l) && IsIdentifier(i)
    requires d != [] && AllDigits(d) && DigitsValue(d) > 0
    ensures ParseCommand(Join(["INVENTORY", "INCREMENT", l, i, "0" + d], " ")) == Call(InventoryIncrement(l, i, DigitsValue(d)))
    ensures ParseCommand(Join(["INVENTORY", "INCREMENT", l, i, "+" + d], " ")) == Call(InventoryIncrement(l, i, DigitsValue(d)))
    ensures Execute(s, Join(["INVENTORY", "INCREMENT", l, i, "0" + d], " ")) == Apply(s, InventoryIncrement(l, i, DigitsValue(d)))
  {
    assert NoSpace("0" + d) && NoSpace("+" + d) by {
      forall k | 0 < k < |d| + 1 ensures ("0" + d)[k] == ("+" + d)[k] == d[k - 1] {}
    }
    QuantitySpellings(l, i, d);
    IncrementLine(l, i, "0" + d);
    IncrementLine(l, i, "+" + d);
  }

  // ---------------------------------------------------------------------------
  // What the parser accepts
  // ---------------------------------------------------------------------------

  /** A known DOMAIN OPERATION given the wrong number of arguments is refused
      with the arity message, before any argument is looked at. */
  lemma ArityEnforced(line: string, expected: nat)
    requires !IsBlank(line) && |Split(line)| >= 2
    requires ArgumentCount(Upper(Split(line)[0]), Upper(Split(line)[1])) == Some(expected)
    requires |Split(line)| - 2 != expected
    ensures ParseCommand(line) ==
      Rejected(ArityError(Upper(Split(line)[0]), Upper(Split(line)[1]), expected, |Split(line)| - 2))
  {
    var tokens := Split(line);
    var d, o := Upper(tokens[0]), Upper(tokens[1]);
    var e := ArityError(d, o, expected, |tokens| - 2);
    if d == "LOCATION" {
      assert ParseLocationCommand(o, tokens[2..]) == Err(e);
    } else {
      assert ParseInventoryCommand(o, tokens[2..]) == Err(e);
    }
  }

  /** A line of fewer than two words is refused with a fixed message. */
  lemma TooFewTokens(line: string)
    requires !IsBlank(line) && |Split(line)| < 2
    ensures ParseCommand(line) == Rejected(InvalidCommand("Command must have at least 2 tokens"))
  {
  }

  /** An unknown domain is refused, and named upper-cased in the error. */
  lemma UnknownDomainRejected(line: string)
    requires |Split(line)| >= 2
    requires Upper(Split(line)[0]) != "LOCATION" && Upper(Split(line)[0]) != "INVENTORY"
    ensures ParseCommand(line) == Rejected(InvalidCommand("Unknown domain: " + Upper(Split(line)[0])))
  {
    BlankIffNoWords(line);
  }

  /** The reply to an unknown domain is exactly "ERR: Invalid command:
      Unknown domain: <DOMAIN>", and nothing changes. */
  lemma UnknownDomain(s: Snapshot, line: string)
    requires ValidSnapshot(s)
    requires |Split(line)| >= 2
    requires Upper(Split(line)[0]) != "LOCATION" && Upper(Split(line)[0]) != "INVENTORY"
    ensures var r := Execute(s, line);
      && r.text == "ERR: " + "Invalid command: " + "Unknown domain: " + Upper(Split(line)[0])
      && r.post == s && r.saved == []
  {
    var d := Upper(Split(line)[0]);
    var detail := "Unknown domain: " + d;
    UnknownDomainRejected(line);
    InvalidCommandReply(detail);
    assert "ERR: " + "Invalid command: " + "Unknown domain: " + d == "ERR: " + "Invalid command: " + detail;
    assert Execute(s, line).text == ErrorReply(InvalidCommand(detail));
  }

  /** The reply for a refused command, spelled out. */
  lemma InvalidCommandReply(detail: string)
    ensures ErrorReply(InvalidCommand(detail)) == "ERR: " + "Invalid command: " + detail
  {
    var t := ErrorReply(InvalidCommand(detail));
    assert t == t[..5] + t[5..];
  }

  /** Domain and operation are matched regardless of case. */
  lemma CaseInsensitive(domain: string, operation: string, args: seq<string>)
    requires domain != [] && NoSpace(domain) && operation != [] && NoSpace(operation)
    requires forall w | w in args :: w != [] && NoSpace(w)
    ensures ParseCommand(Join([domain, operation] + args, " "))
         == ParseCommand(Join([Upper(domain), Upper(operation)] + args, " "))
  {
    UpperWord(domain);
    UpperWord(operation);
    var words := [domain, operation] + args;
    var upper := [Upper(domain), Upper(operation)] + args;
    assert forall w | w in words :: w != [] && NoSpace(w);
    assert forall w | w in upper :: w != [] && NoSpace(w);
    SplitJoin(words);
    SplitJoin(upper);
    BlankIffNoWords(Join(words, " "));
    BlankIffNoWords(Join(upper, " "));
    UpperIdempotent(domain);
    UpperIdempotent(operation);
    assert words[2..] == args == upper[2..];
    SameKeywordsSameParse(Join(words, " "), Join(upper, " "));
  }

  /** The parse of a line depends only on its blankness, the upper-cased
      first two tokens and the remaining tokens. */
  lemma SameKeywordsSameParse(a: string, b: string)
    requires IsBlank(a) == IsBlank(b)
    requires |Split(a)| == |Split(b)|
    requires |Split(a)| >= 2 ==>
      && Upper(Split(a)[0]) == Upper(Split(b)[0])
      && Upper(Split(a)[1]) == Upper(Split(b)[1])
      && Split(a)[2..] == Split(b)[2..]
    ensures ParseCommand(a) == ParseCommand(b)
  {
  }

  /** A keyword: a word of upper-case letters. */
  predicate IsKeyword(w: string) {
    w != [] && forall i | 0 <= i < |w| :: 'A' <= w[i] <= 'Z'
  }

  lemma KeywordWord(w: string)
    requires IsKeyword(w)
    ensures NoSpace(w) && Upper(w) == w
  {
  }

  /** `w` spells the keyword `k` in any mix of upper and lower case. */
  predicate CaseVariantOf(w: string, k: string) {
    |w| == |k| && forall i | 0 <= i < |w| :: w[i] == k[i] || w[i] as int == k[i] as int + 32
  }

  /** Any spelling of a keyword, in whatever case, upper-cases to the keyword
      and is a word. */
  lemma UpperOfCaseVariant(w: string, k: string)
    requires IsKeyword(k) && CaseVariantOf(w, k)
    ensures Upper(w) == k
    ensures w != [] && NoSpace(w)
  {
    forall i | 0 <= i < |w| ensures Upper(w)[i] == k[i] && !IsSpace(w[i]) {
      assert 'A' <= k[i] <= 'Z';
    }
  }

  /** The canonical tokens are words, and the keywords are already upper case. */
  lemma KeywordsOf(cmd: Command)
    ensures IsKeyword(Domain(cmd)) && IsKeyword(Operation(cmd))
  {
  }

  lemma ArgumentsAreWords(cmd: Command)
    requires WellFormed(cmd)
    ensures forall w | w in Arguments(cmd) :: w != [] && NoSpace(w)
  {
    match cmd
    case LocationRegister(l) => IdentifierHasNoSpace(l);
    case LocationUnregister(l) => IdentifierHasNoSpace(l);
    case InventoryIncrement(l, i, q) =>
      IdentifierHasNoSpace(l);
      IdentifierHasNoSpace(i);
      IntToStringIsWord(q);
    case InventoryDecrement(l, i, q) =>
      IdentifierHasNoSpace(l);
      IdentifierHasNoSpace(i);
      IntToStringIsWord(q);
    case InventoryTransfer(a, b, i, q) =>
      IdentifierHasNoSpace(a);
      IdentifierHasNoSpace(b);
      IdentifierHasNoSpace(i);
      IntToStringIsWord(q);
    case InventoryObserve(l) => IdentifierHasNoSpace(l);
  }

  lemma RenderWords(cmd: Command)
    requires WellFormed(cmd)
    ensures var words := Render(cmd);
      && |words| >= 3
      && (forall w | w in words :: w != [] && NoSpace(w))
      && Upper(words[0]) == words[0] && Upper(words[1]) == words[1]
  {
    KeywordsOf(cmd);
    KeywordWord(Domain(cmd));
    KeywordWord(Operation(cmd));
    ArgumentsAreWords(cmd);
    assert Arguments(cmd) != [];
  }

  /** The arguments of a well-formed LOCATION command pass its checks. */
  lemma LocationArgumentsAccepted(cmd: Command)
    requires WellFormed(cmd) && Domain(cmd) == "LOCATION"
    ensures ParseLocationCommand(Operation(cmd), Arguments(cmd)) == Ok(cmd)
  {
    assert ValidateIdentifier(cmd.locationId, "location_id") == Ok(cmd.locationId);
  }

  /** The arguments of a well-formed INVENTORY command pass its checks. */
  lemma InventoryArgumentsAccepted(cmd: Command)
    requires WellFormed(cmd) && Domain(cmd) == "INVENTORY"
    ensures ParseInventoryCommand(Operation(cmd), Arguments(cmd)) == Ok(cmd)
  {
    match cmd
    case InventoryIncrement(l, i, q) =>
      QuantityRoundTrip(q);
      assert ParseInventoryCommand("INCREMENT", [l, i, IntToString(q)]) == Ok(cmd);
    case InventoryDecrement(l, i, q) =>
      QuantityRoundTrip(q);
      assert ParseInventoryCommand("DECREMENT", [l, i, IntToString(q)]) == Ok(cmd);
    case InventoryTransfer(a, b, i, q) =>
      TransferArgumentsAccepted(a, b, i, q);
    case InventoryObserve(l) =>
      assert ParseInventoryCommand("OBSERVE", [l]) == Ok(cmd);
  }

  lemma TransferArgumentsAccepted(a: string, b: string, i: string, q: int)
    requires IsIdentifier(a) && IsIdentifier(b) && IsIdentifier(i) && q > 0
    ensures ParseInventoryCommand("TRANSFER", [a, b, i, IntToString(q)]) == Ok(InventoryTransfer(a, b, i, q))
  {
    QuantityRoundTrip(q);
  }

  /** Every well-formed command, written out in canonical form, is parsed
      back to itself. */
  lemma ParseRender(cmd: Command)
    requires WellFormed(cmd)
    ensures ParseCommand(Join(Render(cmd), " ")) == Call(cmd)
  {
    var words := Render(cmd);
    var line := Join(words, " ");
    RenderWords(cmd);
    if Domain(cmd) == "LOCATION" {
      LocationArgumentsAccepted(cmd);
    } else {
      InventoryArgumentsAccepted(cmd);
    }
    SplitJoin(words);
    BlankIffNoWords(line);
    assert words[0] == Domain(cmd) && words[1] == Operation(cmd) && words[2..] == Arguments(cmd);
    assert words[0] == "LOCATION" || words[0] == "INVENTORY";
  }
  /** A well-formed command whose domain and operation are written in any
      mix of cases, e.g. "location register L1", parses to that command. */
  lemma CaseVariantParses(cmd: Command, domain: string, operation: string)
    requires WellFormed(cmd)
    requires CaseVariantOf(domain, Domain(cmd)) && CaseVariantOf(operation, Operation(cmd))
    ensures ParseCommand(Join([domain, operation] + Arguments(cmd), " ")) == Call(cmd)
  {
    KeywordsOf(cmd);
    UpperOfCaseVariant(domain, Domain(cmd));
    UpperOfCaseVariant(operation, Operation(cmd));
    ArgumentsAreWords(cmd);
    CaseInsensitive(domain, operation, Arguments(cmd));
    assert [Upper(domain), Upper(operation)] + Arguments(cmd) == Render(cmd);
    ParseRender(cmd);
  }


  // ---------------------------------------------------------------------------
  // The OBSERVE reply
  // ---------------------------------------------------------------------------

  /** Ascending item id, equal ids allowed. */
  predicate SortedById(items: seq<InventoryItem>) {
    forall i | 0 <= i < |items| - 1 :: LexLessEq(items[i].itemId, items[i + 1].itemId)
  }

  /** Puts `x` in front of the first item whose id is not smaller. */
  function InsertById(x: InventoryItem, sorted: seq<InventoryItem>): (r: seq<InventoryItem>)
    ensures |r| == |sorted| + 1 && (r[0] == x || (sorted != [] && r[0] == sorted[0]))
    ensures SortedById(sorted) ==> SortedById(r)
  {
    if sorted == [] then [x]
    else if LexLessEq(x.itemId, sorted[0].itemId) then [x] + sorted
    else
      var rest := InsertById(x, sorted[1..]);
      LexTotal(x.itemId, sorted[0].itemId);
      assert sorted == [sorted[0]] + sorted[1..];
      assert SortedById(sorted) ==> SortedById(sorted[1..]) && SortedById([sorted[0]] + rest) by {
        if SortedById(sorted) {
          assert forall i | 0 <= i < |sorted[1..]| - 1 :: sorted[1..][i] == sorted[i + 1];
        }
      }
      [sorted[0]] + rest
  }

  /** Inserting adds exactly the one item. */
  lemma {:induction false} InsertByIdPermutes(x: InventoryItem, sorted: seq<InventoryItem>)
    ensures multiset(InsertById(x, sorted)) == multiset(sorted) + multiset{x}
  {
    if sorted != [] && !LexLessEq(x.itemId, sorted[0].itemId) {
      InsertByIdPermutes(x, sorted[1..]);
      assert sorted == [sorted[0]] + sorted[1..];
      assert InsertById(x, sorted) == [sorted[0]] + InsertById(x, sorted[1..]);
    }
  }

  /** `sorted(items, key=lambda item: item.item_id)`: a stable sort by id. */
  function SortById(items: seq<InventoryItem>): (r: seq<InventoryItem>)
    ensures SortedById(r) && multiset(r) == multiset(items)
  {
    if items == [] then []
    else
      assert items == [items[0]] + items[1..];
      InsertByIdPermutes(items[0], SortById(items[1..]));
      InsertById(items[0], SortById(items[1..]))
  }

  /** Items already in strictly ascending id, as the service hands them
      over, come out of the sort unchanged. */
  lemma {:induction false} SortByIdKeepsAscending(items: seq<InventoryItem>)
    requires forall i, j | 0 <= i < j < |items| :: LexLess(items[i].itemId, items[j].itemId)
    ensures SortById(items) == items
  {
    if items != [] {
      SortByIdKeepsAscending(items[1..]);
      if |items| > 1 {
        assert LexLess(items[0].itemId, items[1].itemId);
      }
    }
  }

  /** "ITEM <item_id> <qty>" */
  function ItemLine(item: InventoryItem): (r: string)
    ensures "ITEM " <= r && |r| > 6 + |item.itemId|
  {
    "ITEM " + item.itemId + " " + IntToString(item.quantity)
  }

  /** `_format_observe_response` */
  function FormatObserve(items: seq<InventoryItem>): (r: string)
    ensures r == MsgEmpty <==> items == []
    ensures r != [] && r != MsgOk
  {
    if items == [] then MsgEmpty
    else
      var lines := ItemLines(SortById(items));
      assert multiset(SortById(items)) == multiset(items);
      assert Join(lines, "\n")[0] == 'I';
      Join(lines, "\n")
  }

  /** Reads "ITEM id qty" word triples back into items. */
  function ReadItems(words: seq<string>): Option<seq<InventoryItem>>
    decreases |words|
  {
    if words == [] then Some([])
    else if |words| >= 3 && words[0] == "ITEM" && ParseInt(words[2]).Some? then
      match ReadItems(words[3..])
      case None => None
      case Some(rest) => Some([InventoryItem(words[1], ParseInt(words[2]).value)] + rest)
    else None
  }

  /** Reads an OBSERVE reply back into the items it lists. */
  function ReadObserve(text: string): Option<seq<InventoryItem>> {
    if text == MsgEmpty then Some([]) else ReadItems(Split(text))
  }

  /** An item line is three words: the keyword, the id and the quantity. */
  lemma ItemLineWords(item: InventoryItem)
    requires ValidItem(item)
    ensures Split(ItemLine(item)) == ["ITEM", item.itemId, IntToString(item.quantity)]
  {
    IdentifierHasNoSpace(item.itemId);
    IntToStringIsWord(item.quantity);
    KeywordWord("ITEM");
    var q := IntToString(item.quantity);
    var rest := item.itemId + " " + q;
    assert ItemLine(item) == "ITEM" + " " + rest;
    SingleWord(q);
    WordThenSpace(item.itemId, q);
    WordThenSpace("ITEM", rest);
  }

  /** One line per item, in order. */
  function ItemLines(items: seq<InventoryItem>): (lines: seq<string>)
    ensures |lines| == |items|
    ensures forall k | 0 <= k < |items| :: lines[k] == ItemLine(items[k])
  {
    if items == [] then [] else [ItemLine(items[0])] + ItemLines(items[1..])
  }

  /** A single item line reads back as that item. */
  lemma ReadOneLine(x: InventoryItem)
    requires ValidItem(x)
    ensures ReadItems(Split(ItemLine(x))) == Some([x])
  {
    ItemLineWords(x);
    ParseIntToString(x.quantity);
    var words := Split(ItemLine(x));
    assert words[0] == "ITEM" && words[1] == x.itemId && ParseInt(words[2]) == Some(x.quantity);
    assert words[3..] == [] && ReadItems(words[3..]) == Some([]);
    assert [InventoryItem(x.itemId, x.quantity)] + [] == [x];
  }

  /** An item line followed by a newline reads as that item, then whatever
      the rest reads as. */
  lemma ReadLineThenRest(x: InventoryItem, restText: string, rest: seq<InventoryItem>)
    requires ValidItem(x) && ReadItems(Split(restText)) == Some(rest)
    ensures ReadItems(Split(ItemLine(x) + "\n" + restText)) == Some([x] + rest)
  {
    ItemLineWords(x);
    ParseIntToString(x.quantity);
    assert ItemLine(x) + "\n" + restText == ItemLine(x) + ['\n'] + restText;
    SplitAroundSpace(ItemLine(x), '\n', restText);
    var words := Split(ItemLine(x) + "\n" + restText);
    assert words[3..] == Split(restText);
  }

  /** Joining two or more item lines puts the first one, then a newline. */
  lemma JoinLinesCons(items: seq<InventoryItem>)
    requires |items| >= 2
    ensures Join(ItemLines(items), "\n") == ItemLine(items[0]) + "\n" + Join(ItemLines(items[1..]), "\n")
  {
    var lines := ItemLines(items);
    assert lines[0] == ItemLine(items[0]) && lines[1..] == ItemLines(items[1..]);
  }

  /** If the lines after the first read back as the rest of the items, all
      of them read back as all the items. */
  lemma ReadItemLinesStep(items: seq<InventoryItem>)
    requires |items| >= 2 && ValidItem(items[0])
    requires ReadItems(Split(Join(ItemLines(items[1..]), "\n"))) == Some(items[1..])
    ensures ReadItems(Split(Join(ItemLines(items), "\n"))) == Some(items)
  {
    var restText := Join(ItemLines(items[1..]), "\n");
    JoinLinesCons(items);
    ReadLineThenRest(items[0], restText, items[1..]);
    assert items == [items[0]] + items[1..];
  }

  /** Lines of valid items joined by newlines read back as those items. */
  lemma {:induction false} ReadItemLines(items: seq<InventoryItem>)
    requires items != [] && forall x | x in items :: ValidItem(x)
    ensures ReadItems(Split(Join(ItemLines(items), "\n"))) == Some(items)
  {
    if |items| == 1 {
      assert ItemLines(items) == [ItemLine(items[0])];
      ReadOneLine(items[0]);
      assert items == [items[0]];
    } else {
      assert forall y | y in items[1..] :: y in items;
      ReadItemLines(items[1..]);
      ReadItemLinesStep(items);
    }
  }

  /** An item line is one line: neither the id nor the quantity holds a newline. */
  lemma ItemLineIsOneLine(item: InventoryItem)
    requires ValidItem(item)
    ensures '\n' !in ItemLine(item)
  {
    IdentifierHasNoSpace(item.itemId);
    IntToStringIsWord(item.quantity);
    var q := IntToString(item.quantity);
    forall k | 0 <= k < |item.itemId| ensures item.itemId[k] != '\n' {
      assert !IsSpace(item.itemId[k]);
    }
    forall k | 0 <= k < |q| ensures q[k] != '\n' {
      assert !IsSpace(q[k]);
    }
    assert ItemLine(item) == "ITEM " + item.itemId + " " + q;
  }

  /** The lines of valid items hold no newline. */
  lemma ItemLinesAreLines(items: seq<InventoryItem>)
    requires forall k | 0 <= k < |items| :: ValidItem(items[k])
    ensures forall l | l in ItemLines(items) :: '\n' !in l
  {
    var lines := ItemLines(items);
    forall k | 0 <= k < |lines| ensures '\n' !in lines[k] {
      ItemLineIsOneLine(items[k]);
    }
  }

  /** A non-empty OBSERVE reply, cut at its newlines, is one "ITEM <id> <qty>"
      line per item, in ascending id. */
  lemma ObserveLayout(items: seq<InventoryItem>)
    requires items != [] && forall x | x in items :: ValidItem(x)
    ensures Lines(FormatObserve(items)) == ItemLines(SortById(items))
  {
    var sorted := SortById(items);
    assert forall k | 0 <= k < |sorted| :: sorted[k] in multiset(items);
    ItemLinesAreLines(sorted);
    assert FormatObserve(items) == Join(ItemLines(sorted), "\n");
    LinesJoin(ItemLines(sorted));
  }

  /** An OBSERVE reply lists exactly the items it was given, in ascending id. */
  lemma ObserveRoundTrip(items: seq<InventoryItem>)
    requires forall x | x in items :: ValidItem(x)
    ensures ReadObserve(FormatObserve(items)) == Some(SortById(items))
  {
    if items != [] {
      var sorted := SortById(items);
      assert forall x | x in sorted :: x in multiset(items);
      ReadItemLines(sorted);
    }
  }

  // ---------------------------------------------------------------------------
  // Executing a line
  // ---------------------------------------------------------------------------

  /** The reply text, the state afterwards, and the snapshots persisted. */
  datatype Reply = Reply(text: string, post: Snapshot, saved: seq<Snapshot>)

  /** The reply to a mutating call, persisting the new state on success. */
  function Persist(step: Step): (r: Reply)
    ensures r.text == MsgOk <==> step.outcome.Done?
    ensures step.outcome.Failed? ==> r.text == ErrorReply(step.outcome.error)
    ensures r.post == step.post
    ensures r.saved == (if r.text == MsgOk then [r.post] else [])
  {
    Reply(Respond(step.outcome), step.post, if step.outcome.Done? then [step.post] else [])
  }

  /** The service operation a state-changing command calls. */
  function Mutation(s: Snapshot, cmd: Command): (r: Step)
    requires !cmd.InventoryObserve?
    ensures ValidSnapshot(s) ==> ValidSnapshot(r.post) && (r.outcome.Failed? ==> r.post == s)
  {
    match cmd
    case LocationRegister(l) => Register(s, l)
    case LocationUnregister(l) => Unregister(s, l)
    case InventoryIncrement(l, i, q) => Increment(s, l, i, q)
    case InventoryDecrement(l, i, q) => Decrement(s, l, i, q)
    case InventoryTransfer(a, b, i, q) => Transfer(s, a, b, i, q)
  }

  /** The service call a command stands for, and the reply it produces. */
  function Apply(s: Snapshot, cmd: Command): (r: Reply)
    requires ValidSnapshot(s)
    ensures r.text != []
    ensures r.saved == (if r.text == MsgOk then [r.post] else [])
    ensures cmd.InventoryObserve? ==>
      && r.post == s
      && r.text == (if cmd.locationId in s then FormatObserve(Observe(s, cmd.locationId).value)
                    else ErrorReply(LocationNotFound(cmd.locationId)))
    ensures !cmd.InventoryObserve? ==>
      && r.post == Mutation(s, cmd).post
      && (r.text == MsgOk <==> Mutation(s, cmd).outcome.Done?)
      && (Mutation(s, cmd).outcome.Failed? ==> r.text == ErrorReply(Mutation(s, cmd).outcome.error))
    ensures ValidSnapshot(r.post)
  {
    if cmd.InventoryObserve? then
      match Observe(s, cmd.locationId)
      case Ok(items) => Reply(FormatObserve(items), s, [])
      case Err(e) => Reply(ErrorReply(e), s, [])
    else Persist(Mutation(s, cmd))
  }

  /** `execute_command` on a service whose state is `s`. */
  function Execute(s: Snapshot, line: string): (r: Reply)
    requires ValidSnapshot(s)
    ensures r.text == "" <==> IsBlank(line)
    ensures r.saved == (if r.text == MsgOk then [r.post] else [])
    ensures !ParseCommand(line).Call? ==> r.post == s
    ensures ParseCommand(line).Rejected? ==> r.text == ErrorReply(ParseCommand(line).error)
    ensures ParseCommand(line).Call? ==> r == Apply(s, ParseCommand(line).command)
    ensures ValidSnapshot(r.post)
  {
    match ParseCommand(line)
    case Blank => Reply("", s, [])
    case Rejected(e) => Reply(ErrorReply(e), s, [])
    case Call(cmd) => Apply(s, cmd)
  }

  lemma ObserveLine(locationId: string)
    ensures Join(Render(InventoryObserve(locationId)), " ") == "INVENTORY OBSERVE " + locationId
  {
    var words := Render(InventoryObserve(locationId));
    assert words == ["INVENTORY", "OBSERVE", locationId];
    assert words[1..] == ["OBSERVE", locationId] && words[1..][1..] == [locationId];
    assert Join(["OBSERVE", locationId], " ") == "OBSERVE" + " " + locationId;
  }

  /** What the service hands over, strictly ascending and valid, is what
      the reply lists. */
  lemma ObserveListsAscending(items: seq<InventoryItem>)
    requires forall i, j | 0 <= i < j < |items| :: LexLess(items[i].itemId, items[j].itemId)
    requires forall i | 0 <= i < |items| :: ValidItem(items[i])
    ensures ReadObserve(FormatObserve(items)) == Some(items)
  {
    SortByIdKeepsAscending(items);
    ObserveRoundTrip(items);
  }

  /** A line that parses to a state-changing command, however it is spelled,
      runs the service operation it names: the state becomes what that
      operation leaves, the reply is "OK" exactly when it succeeds and
      otherwise reports its error, and the new state is saved exactly on
      success. */
  lemma ExecuteMutation(s: Snapshot, line: string, cmd: Command)
    requires ValidSnapshot(s) && ParseCommand(line) == Call(cmd) && !cmd.InventoryObserve?
    ensures var r := Execute(s, line);
      && r.post == Mutation(s, cmd).post
      && (r.text == MsgOk <==> Mutation(s, cmd).outcome.Done?)
      && (Mutation(s, cmd).outcome.Failed? ==> r.text == ErrorReply(Mutation(s, cmd).outcome.error))
      && r.saved == (if Mutation(s, cmd).outcome.Done? then [r.post] else [])
  {
    assert Execute(s, line) == Apply(s, cmd);
  }

  /** In particular, every well-formed state-changing command written out in
      canonical form does so. */
  lemma ExecuteCanonicalMutation(s: Snapshot, cmd: Command)
    requires ValidSnapshot(s) && WellFormed(cmd) && !cmd.InventoryObserve?
    ensures var r := Execute(s, Join(Render(cmd), " "));
      && r.post == Mutation(s, cmd).post
      && (r.text == MsgOk <==> Mutation(s, cmd).outcome.Done?)
      && (Mutation(s, cmd).outcome.Failed? ==> r.text == ErrorReply(Mutation(s, cmd).outcome.error))
      && r.saved == (if Mutation(s, cmd).outcome.Done? then [r.post] else [])
  {
    ParseRender(cmd);
    ExecuteMutation(s, Join(Render(cmd), " "), cmd);
  }

  /** The argument tokens a well-formed command was read from pass the
      checks: the identifier tokens are identifiers, and a trailing quantity
      token is an integer above zero. */
  lemma MatchedArgumentsValid(cmd: Command, args: seq<string>)
    requires WellFormed(cmd) && Matches(cmd, args)
    ensures |args| >= 1 && IsIdentifier(args[0])
    ensures |args| > 1 ==>
      && (forall k | 0 <= k < |args| - 1 :: IsIdentifier(args[k]))
      && ParseInt(args[|args| - 1]).Some? && ParseInt(args[|args| - 1]).value > 0
  {
    match cmd
    case InventoryIncrement(l, i, _) =>
      forall k | 0 <= k < |args| - 1 ensures IsIdentifier(args[k]) {
        assert k == 0 || k == 1;
      }
    case InventoryDecrement(l, i, _) =>
      forall k | 0 <= k < |args| - 1 ensures IsIdentifier(args[k]) {
        assert k == 0 || k == 1;
      }
    case InventoryTransfer(a, b, i, _) =>
      forall k | 0 <= k < |args| - 1 ensures IsIdentifier(args[k]) {
        assert k == 0 || k == 1 || k == 2;
      }
    case LocationRegister(_) =>
    case LocationUnregister(_) =>
    case InventoryObserve(_) =>
  }

  /** Every argument token of an accepted line has passed its check. */
  lemma ArgumentsValidated(line: string)
    requires ParseCommand(line).Call?
    ensures var args := Split(line)[2..];
      && |args| >= 1 && IsIdentifier(args[0])
      && (|args| > 1 ==>
            && (forall k | 0 <= k < |args| - 1 :: IsIdentifier(args[k]))
            && ParseInt(args[|args| - 1]).Some? && ParseInt(args[|args| - 1]).value > 0)
  {
    MatchedArgumentsValid(ParseCommand(line).command, Split(line)[2..]);
  }

  /** A line that parses to an OBSERVE changes and saves nothing. On a known
      location its reply reads back as that location's items in ascending
      id; on an unknown one it is "ERR: Location '<id>' does not exist". */
  lemma ObserveReply(s: Snapshot, line: string, locationId: string)
    requires ValidSnapshot(s) && ParseCommand(line) == Call(InventoryObserve(locationId))
    ensures var r := Execute(s, line);
      && r.post == s && r.saved == []
      && (locationId in s ==> ReadObserve(r.text) == Some(SortedItems(s[locationId])))
      && (locationId !in s ==> r.text == "ERR: " + "Location '" + locationId + "' does not exist")
  {
    var r := Execute(s, line);
    assert r == Apply(s, InventoryObserve(locationId));
    if locationId in s {
      ObserveKnown(s, locationId);
    } else {
      NotFoundReply(locationId);
    }
  }

  lemma ObserveKnown(s: Snapshot, locationId: string)
    requires ValidSnapshot(s) && locationId in s
    ensures ReadObserve(Apply(s, InventoryObserve(locationId)).text) == Some(SortedItems(s[locationId]))
  {
    var items := SortedItems(s[locationId]);
    assert Apply(s, InventoryObserve(locationId)).text == FormatObserve(items);
    ObserveListsAscending(items);
  }

  /** The reply for an unknown location, spelled out. */
  lemma NotFoundReply(locationId: string)
    ensures ErrorReply(LocationNotFound(locationId)) == "ERR: " + "Location '" + locationId + "' does not exist"
  {
    var t := ErrorReply(LocationNotFound(locationId));
    var m := Message(LocationNotFound(locationId));
    assert t == "ERR: " + m by {
      assert t == t[..5] + t[5..];
    }
    assert "ERR: " + m == "ERR: " + "Location '" + locationId + "' does not exist";
  }

  /** The canonical "INVENTORY OBSERVE <id>" line of a known location reads
      back as that location's items in ascending id. */
  lemma ObserveReportsInventory(s: Snapshot, locationId: string)
    requires ValidSnapshot(s) && locationId in s
    ensures var r := Execute(s, "INVENTORY OBSERVE " + locationId);
      r.post == s && r.saved == [] && ReadObserve(r.text) == Some(SortedItems(s[locationId]))
  {
    ObserveLine(locationId);
    ParseRender(InventoryObserve(locationId));
    ObserveReply(s, "INVENTORY OBSERVE " + locationId, locationId);
  }

  // ---------------------------------------------------------------------------
  // The controller object
  // ---------------------------------------------------------------------------

  class WarehouseController {
    const service: WarehouseService

    constructor (service: WarehouseService)
      ensures this.service == service
    {
      this.service := service;
    }

    /** `execute_command` */
    method ExecuteCommand(line: string) returns (text: string)
      requires service.Valid()
      modifies service, service.locations.Values
      ensures service.Valid()
      ensures var reply := Execute(old(service.state), line);
        && text == reply.text
        && service.state == reply.post
        && service.saved == old(service.saved) + reply.saved
    {
      match ParseCommand(line)
      case Blank =>
        text := "";
      case Rejected(e) =>
        text := ErrorReply(e);
      case Call(cmd) =>
        text := Dispatch(cmd);
    }

    /** The service call at the end of each `_handle_*_command` branch, and
        the reply built from what it returns or raises. */
    method Dispatch(cmd: Command) returns (text: string)
      requires service.Valid()
      modifies service, service.locations.Values
      ensures service.Valid()
      ensures var reply := Apply(old(service.state), cmd);
        && text == reply.text
        && service.state == reply.post
        && service.saved == old(service.saved) + reply.saved
    {
      if cmd.InventoryObserve? {
        var items := service.ObserveInventory(cmd.locationId);
        text := match items
          case Ok(v) => FormatObserve(v)
          case Err(e) => ErrorReply(e);
      } else {
        var o := Perform(cmd);
        text := Respond(o);
      }
    }

    /** The state-changing service methods. */
    method Perform(cmd: Command) returns (o: Outcome)
      requires service.Valid() && !cmd.InventoryObserve?
      modifies service, service.locations.Values
      ensures service.Valid()
      ensures Step(o, service.state) == Mutation(old(service.state), cmd)
      ensures service.saved == old(service.saved) + (if o.Done? then [service.state] else [])
    {
      match cmd
      case LocationRegister(l) =>
        o := service.RegisterLocation(l);
      case LocationUnregister(l) =>
        o := service.UnregisterLocation(l);
      case InventoryIncrement(l, i, q) =>
        o := service.IncrementInventory(l, i, q);
      case InventoryDecrement(l, i, q) =>
        o := service.DecrementInventory(l, i, q);
      case InventoryTransfer(a, b, i, q) =>
        o := service.TransferInventory(a, b, i, q);
    }
  }
}
