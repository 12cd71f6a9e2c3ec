/** `parseCommand`: from a line (newline already stripped) to a command.
    `Scan` is the token loop as the code runs it; the clause view
    (`Group`) describes the same result independently, and `ParseCommand`
    is the imperative parser proved against `ParseLine`. */
module Parser {
  import opened Wrappers
  import opened Tokenizer
  import opened Format
  import opened Expansion
  import opened Command

  /** Inputs on which the C parser has undefined behaviour: a line of spaces
      only (`strtok` returns NULL for the command) and a `<` or `>` with no
      token after it (`strlen(NULL)`). The model reports them instead. */
  datatype ParseError = NoProgramName | MissingInputFile | MissingOutputFile

  datatype ParseResult = NoCommand | Malformed(error: ParseError) | Parsed(cmd: CommandValue)

  /** How the token loop classifies a token (its `strcmp` tests). */
  datatype TokenKind = InputOp | OutputOp | BackgroundOp | Plain

  function Kind(t: string): TokenKind {
    if t == "<" then InputOp
    else if t == ">" then OutputOp
    else if t == "&" then BackgroundOp
    else Plain
  }

  /** The command right after its first token is stored. */
  function Start(token: string): CommandValue {
    CommandValue(token, [token], None, None, false)
  }

  /** The token loop of `parseCommand`, one branch per case of the code. */
  function Scan(c: CommandValue, toks: seq<string>): Result<CommandValue, ParseError>
    decreases |toks|
  {
    if |toks| == 0 then Ok(c)
    else match Kind(toks[0])
      case InputOp =>
        if |toks| == 1 then Err(MissingInputFile)
        else Scan(c.(inputFile := Some(toks[1])), toks[2..])
      case OutputOp =>
        if |toks| == 1 then Err(MissingOutputFile)
        else Scan(c.(outputFile := Some(toks[1])), toks[2..])
      case BackgroundOp =>
        if |toks| == 1 then Ok(c.(isBackground := true))
        else Scan(c.(isBackground := false, arguments := c.arguments + ["&", toks[1]]), toks[2..])
      case Plain =>
        Scan(c.(arguments := c.arguments + [toks[0]]), toks[1..])
  }

  /** What `parseCommand` returns for a line, with `pid` the shell's
      process id: NULL for an empty or comment line, otherwise the scanned
      command with `$$` expanded in its arguments (and only there). */
  function ParseLine(line: string, pid: nat): ParseResult {
    if |line| == 0 || line[0] == '#' then NoCommand
    else
      var toks := Tokens(line);
      if |toks| == 0 then Malformed(NoProgramName)
      else match Scan(Start(toks[0]), toks[1..])
        case Err(e) => Malformed(e)
        case Ok(c) => Parsed(c.(arguments := ExpandAll(c.arguments, Decimal(pid))))
  }

  // ---------------------------------------------------------------------
  // The clause view: the tokens after the program name, grouped by role.

  datatype Clause =
    | Word(word: string)             // an ordinary argument
    | InputRedirect(file: string)    // "<" file
    | OutputRedirect(file: string)   // ">" file
    | BackgroundMark                 // the final "&"
    | LiteralAmpersand(next: string) // an embedded "&" with the token after it

  predicate IsOperator(t: string) {
    Kind(t) != Plain
  }

  /** The first tokens form a clause that is not the last one of the line:
      a non-operator, or an operator followed by another token. */
  predicate HasHeadClause(toks: seq<string>) {
    |toks| > 0 && (!IsOperator(toks[0]) || |toks| > 1)
  }

  /** How many tokens that clause takes. */
  function HeadLength(toks: seq<string>): (n: nat)
    requires HasHeadClause(toks)
    ensures 0 < n <= |toks|
  {
    if IsOperator(toks[0]) then 2 else 1
  }

  function HeadClause(toks: seq<string>): Clause
    requires HasHeadClause(toks)
  {
    match Kind(toks[0])
    case InputOp => InputRedirect(toks[1])
    case OutputOp => OutputRedirect(toks[1])
    case BackgroundOp => LiteralAmpersand(toks[1])
    case Plain => Word(toks[0])
  }

  function Group(toks: seq<string>): Result<seq<Clause>, ParseError>
    decreases |toks|
  {
    if |toks| == 0 then Ok([])
    else if !HasHeadClause(toks) then
      match Kind(toks[0])
      case InputOp => Err(MissingInputFile)
      case OutputOp => Err(MissingOutputFile)
      case _ => Ok([BackgroundMark])
    else
      match Group(toks[HeadLength(toks)..])
        case Err(e) => Err(e)
        case Ok(rest) => Ok([HeadClause(toks)] + rest)
  }

  /** What one clause does to the command, as the token loop does it. */
  function ApplyClause(c: CommandValue, cl: Clause): CommandValue {
    match cl
    case Word(w) => c.(arguments := c.arguments + [w])
    case InputRedirect(f) => c.(inputFile := Some(f))
    case OutputRedirect(f) => c.(outputFile := Some(f))
    case BackgroundMark => c.(isBackground := true)
    case LiteralAmpersand(n) => c.(isBackground := false, arguments := c.arguments + ["&", n])
  }

  /** One round of the token loop handles one clause. */
  lemma ScanHead(c: CommandValue, toks: seq<string>)
    requires HasHeadClause(toks)
    ensures Scan(c, toks) == Scan(ApplyClause(c, HeadClause(toks)), toks[HeadLength(toks)..])
  {
  }

  /** The tokens a clause is written with. */
  function Spell(cl: Clause): seq<string> {
    match cl
    case Word(w) => [w]
    case InputRedirect(f) => ["<", f]
    case OutputRedirect(f) => [">", f]
    case BackgroundMark => ["&"]
    case LiteralAmpersand(n) => ["&", n]
  }

  function Flatten(cls: seq<Clause>): seq<string> {
    if |cls| == 0 then [] else Spell(cls[0]) + Flatten(cls[1..])
  }

  /** Clause lists `Group` can produce: words are not operators and the
      background mark can only come last. */
  predicate WellFormed(cls: seq<Clause>) {
    (forall i :: 0 <= i < |cls| && cls[i].Word? ==> !IsOperator(cls[i].word)) &&
    (forall i :: 0 <= i < |cls| - 1 ==> cls[i] != BackgroundMark)
  }

  /** The arguments the clauses contribute, in order. */
  function ArgsOf(cls: seq<Clause>): seq<string> {
    if |cls| == 0 then []
    else
      match cls[0]
      case Word(w) => [w] + ArgsOf(cls[1..])
      case LiteralAmpersand(n) => ["&", n] + ArgsOf(cls[1..])
      case _ => ArgsOf(cls[1..])
  }

  /** The file of the LAST input redirection, searched from the end;
      `dflt` when there is none. */
  function LastInput(cls: seq<Clause>, dflt: Option<string>): Option<string> {
    if |cls| == 0 then dflt
    else if cls[|cls| - 1].InputRedirect? then Some(cls[|cls| - 1].file)
    else LastInput(cls[..|cls| - 1], dflt)
  }

  function LastOutput(cls: seq<Clause>, dflt: Option<string>): Option<string> {
    if |cls| == 0 then dflt
    else if cls[|cls| - 1].OutputRedirect? then Some(cls[|cls| - 1].file)
    else LastOutput(cls[..|cls| - 1], dflt)
  }

  predicate EndsInBackground(cls: seq<Clause>) {
    |cls| > 0 && cls[|cls| - 1] == BackgroundMark
  }

  /** Grouping loses no token: spelling the clauses out again gives the
      tokens back. */
  lemma {:induction false} GroupFlatten(toks: seq<string>)
    requires Group(toks).Ok?
    ensures Flatten(Group(toks).value) == toks
    decreases |toks|
  {
    if HasHeadClause(toks) {
      var n := HeadLength(toks);
      GroupFlatten(toks[n..]);
      var cls := Group(toks).value;
      assert cls[1..] == Group(toks[n..]).value;
      assert Spell(HeadClause(toks)) == toks[..n];
      assert toks == toks[..n] + toks[n..];
    }
  }

  /** Every grouping is well formed. */
  lemma {:induction false} GroupWellFormed(toks: seq<string>)
    requires Group(toks).Ok?
    ensures WellFormed(Group(toks).value)
    decreases |toks|
  {
    if HasHeadClause(toks) {
      var n := HeadLength(toks);
      GroupWellFormed(toks[n..]);
      var cls := Group(toks).value;
      assert cls[1..] == Group(toks[n..]).value;
      forall i | 0 <= i < |cls| - 1 ensures cls[i] != BackgroundMark {
        if i > 0 { assert cls[i] == cls[1..][i - 1]; }
      }
      forall i | 0 <= i < |cls| && cls[i].Word? ensures !IsOperator(cls[i].word) {
        if i > 0 { assert cls[i] == cls[1..][i - 1]; }
      }
    }
  }

  /** The other direction of the round trip: a well-formed clause list,
      spelled out, groups back into itself. */
  lemma {:induction false} FlattenGroup(cls: seq<Clause>)
    requires WellFormed(cls)
    ensures Group(Flatten(cls)) == Ok(cls)
    decreases |cls|
  {
    if |cls| > 0 {
      var rest := cls[1..];
      var toks := Flatten(cls);
      assert toks == Spell(cls[0]) + Flatten(rest);
      if cls[0] == BackgroundMark {
        assert |rest| == 0;
        assert toks == ["&"];
        assert cls == [BackgroundMark];
      } else {
        assert WellFormed(rest) by {
          forall i | 0 <= i < |rest| && rest[i].Word? ensures !IsOperator(rest[i].word) {
            assert rest[i] == cls[i + 1];
          }
          forall i | 0 <= i < |rest| - 1 ensures rest[i] != BackgroundMark {
            assert rest[i] == cls[i + 1];
          }
        }
        FlattenGroup(rest);
        assert cls[0].Word? ==> !IsOperator(cls[0].word);
        assert HasHeadClause(toks) && HeadClause(toks) == cls[0];
        assert toks[HeadLength(toks)..] == Flatten(rest);
        assert cls == [cls[0]] + rest;
      }
    }
  }

  lemma {:induction false} LastInputCons(cl: Clause, cls: seq<Clause>, dflt: Option<string>)
    ensures LastInput([cl] + cls, dflt) == LastInput(cls, LastInput([cl], dflt))
    decreases |cls|
  {
    if |cls| > 0 {
      var all := [cl] + cls;
      assert all[..|all| - 1] == [cl] + cls[..|cls| - 1];
      LastInputCons(cl, cls[..|cls| - 1], dflt);
    } else {
      assert [cl] + cls == [cl];
    }
  }

  lemma {:induction false} LastOutputCons(cl: Clause, cls: seq<Clause>, dflt: Option<string>)
    ensures LastOutput([cl] + cls, dflt) == LastOutput(cls, LastOutput([cl], dflt))
    decreases |cls|
  {
    if |cls| > 0 {
      var all := [cl] + cls;
      assert all[..|all| - 1] == [cl] + cls[..|cls| - 1];
      LastOutputCons(cl, cls[..|cls| - 1], dflt);
    } else {
      assert [cl] + cls == [cl];
    }
  }

  /** A later redirection of the same kind wins over every earlier one. */
  lemma {:induction false} LaterInputWins(before: seq<Clause>, f: string, after: seq<Clause>, dflt: Option<string>)
    requires forall i :: 0 <= i < |after| ==> !after[i].InputRedirect?
    ensures LastInput(before + [InputRedirect(f)] + after, dflt) == Some(f)
    decreases |after|
  {
    var all := before + [InputRedirect(f)] + after;
    if |after| > 0 {
      assert all[..|all| - 1] == before + [InputRedirect(f)] + after[..|after| - 1];
      LaterInputWins(before, f, after[..|after| - 1], dflt);
    }
  }

  lemma {:induction false} LaterOutputWins(before: seq<Clause>, f: string, after: seq<Clause>, dflt: Option<string>)
    requires forall i :: 0 <= i < |after| ==> !after[i].OutputRedirect?
    ensures LastOutput(before + [OutputRedirect(f)] + after, dflt) == Some(f)
    decreases |after|
  {
    var all := before + [OutputRedirect(f)] + after;
    if |after| > 0 {
      assert all[..|all| - 1] == before + [OutputRedirect(f)] + after[..|after| - 1];
      LaterOutputWins(before, f, after[..|after| - 1], dflt);
    }
  }

  /** The scan agrees with the clause view: it fails exactly when grouping
      fails, with the same error; otherwise the arguments gain exactly the
      words and embedded "& x" pairs, the redirection targets are the last
      ones given, and the command runs in the background exactly when the
      clauses end with the background mark. */
  lemma {:induction false} ScanByClauses(c: CommandValue, toks: seq<string>)
    requires !c.isBackground
    ensures Scan(c, toks).Ok? <==> Group(toks).Ok?
    ensures Group(toks).Err? ==> Scan(c, toks).error == Group(toks).error
    ensures Group(toks).Ok? ==> Scan(c, toks).value == Summary(c, Group(toks).value)
    decreases |toks|
  {
    if |toks| == 0 {
      assert c.arguments + [] == c.arguments;
    } else if !HasHeadClause(toks) {
      if Kind(toks[0]) == BackgroundOp {
        assert toks == ["&"];
        assert Group(toks) == Ok([BackgroundMark]);
        assert ArgsOf([BackgroundMark]) == [];
        assert [BackgroundMark][..0] == [];
        assert LastInput([BackgroundMark], c.inputFile) == c.inputFile;
        assert LastOutput([BackgroundMark], c.outputFile) == c.outputFile;
        assert c.arguments + [] == c.arguments;
        assert Summary(c, [BackgroundMark]) == c.(isBackground := true);
      }
    } else {
      var n, cl := HeadLength(toks), HeadClause(toks);
      ScanHead(c, toks);
      ScanByClauses(ApplyClause(c, cl), toks[n..]);
      if Group(toks[n..]).Ok? {
        SummaryCons(c, cl, Group(toks[n..]).value);
      }
    }
  }

  /** The command the clause view predicts after `cls`, starting from `c`. */
  function Summary(c: CommandValue, cls: seq<Clause>): CommandValue {
    c.(arguments := c.arguments + ArgsOf(cls),
       inputFile := LastInput(cls, c.inputFile),
       outputFile := LastOutput(cls, c.outputFile),
       isBackground := EndsInBackground(cls))
  }

  lemma SummaryCons(c: CommandValue, cl: Clause, cls: seq<Clause>)
    requires cl != BackgroundMark && !c.isBackground
    ensures Summary(ApplyClause(c, cl), cls) == Summary(c, [cl] + cls)
  {
    var all := [cl] + cls;
    assert all[1..] == cls;
    assert ArgsOf(all) == ArgsOf([cl]) + ArgsOf(cls);
    LastInputCons(cl, cls, c.inputFile);
    LastOutputCons(cl, cls, c.outputFile);
    assert [cl][..0] == [];
  }

  // ---------------------------------------------------------------------
  // Properties of whole lines.

  /** NULL exactly for an empty line or one starting with '#'. */
  lemma NoCommandIffEmptyOrComment(line: string, pid: nat)
    ensures ParseLine(line, pid) == NoCommand <==> |line| == 0 || line[0] == '#'
  {
  }

  /** A non-comment line of spaces only has no program name. */
  lemma BlankLineIsMalformed(line: string, pid: nat)
    requires |line| > 0 && line[0] != '#' && AllSpaces(line)
    ensures ParseLine(line, pid) == Malformed(NoProgramName)
  {
    NoTokensIffAllSpaces(line);
  }

  /** A parsed command: the first token is the program name, it is also
      the first argument (after `$$` expansion, which the program name
      itself does not undergo), and there is always at least one argument;
      the remaining fields are those of the clause view. */
  lemma ParsedCommandFields(line: string, pid: nat)
    requires ParseLine(line, pid).Parsed?
    ensures var toks := Tokens(line);
      |toks| > 0 && Group(toks[1..]).Ok? &&
      var cls := Group(toks[1..]).value;
      var v := ParseLine(line, pid).cmd;
      v.command == toks[0] && IsToken(v.command) &&
      v.arguments == ExpandAll([toks[0]] + ArgsOf(cls), Decimal(pid)) &&
      |v.arguments| >= 1 && v.arguments[0] == Expand(v.command, Decimal(pid)) &&
      v.inputFile == LastInput(cls, None) &&
      v.outputFile == LastOutput(cls, None) &&
      v.isBackground == EndsInBackground(cls)
  {
    var toks := Tokens(line);
    TokensAreTokens(line);
    ScanByClauses(Start(toks[0]), toks[1..]);
  }

  /** The background flag is set only when the last token is a lone "&". */
  lemma BackgroundNeedsTrailingAmpersand(line: string, pid: nat)
    requires ParseLine(line, pid).Parsed? && ParseLine(line, pid).cmd.isBackground
    ensures var toks := Tokens(line); |toks| >= 2 && toks[|toks| - 1] == "&"
  {
    var toks := Tokens(line);
    ParsedCommandFields(line, pid);
    var cls := Group(toks[1..]).value;
    GroupFlatten(toks[1..]);
    FlattenLast(cls);
    assert toks == [toks[0]] + toks[1..];
  }

  lemma {:induction false} FlattenLast(cls: seq<Clause>)
    requires EndsInBackground(cls)
    ensures |Flatten(cls)| > 0 && Flatten(cls)[|Flatten(cls)| - 1] == "&"
    decreases |cls|
  {
    if |cls| > 1 {
      FlattenLast(cls[1..]);
    }
  }

  // ---------------------------------------------------------------------
  // The imperative parser.

  datatype ParseOutcome = NullCommand | ParseFailure(error: ParseError) | ParsedStruct(cmd: CommandStruct)

  function TokenAt(toks: seq<string>, i: nat): Option<string> {
    if i < |toks| then Some(toks[i]) else None
  }

  /** `parseCommand`: the `strtok` position is the index `i` into the line's
      tokens; the result is a fresh, valid command whose value is
      `ParseLine(line, pid)`. */
  method ParseCommand(line: string, pid: nat) returns (r: ParseOutcome)
    ensures r.NullCommand? <==> ParseLine(line, pid) == NoCommand
    ensures r.ParseFailure? ==> ParseLine(line, pid) == Malformed(r.error)
    ensures r.ParsedStruct? ==>
      fresh(r.cmd) && fresh(r.cmd.argumentsArray) && r.cmd.Valid() && r.cmd.NullTerminated() &&
      ParseLine(line, pid) == Parsed(r.cmd.Value())
  {
    if |line| == 0 || line[0] == '#' {
      return NullCommand;
    }
    var toks := Tokens(line);
    if |toks| == 0 {
      return ParseFailure(NoProgramName);
    }
    var c := new CommandStruct(toks[0]);
    var failure := ScanTokens(c, toks);
    if failure.Some? {
      return ParseFailure(failure.value);
    }
    ghost var scanned := c.Arguments();
    ExpandArguments(c.numArguments, c.argumentsArray, pid);
    assert c.Arguments() == ExpandAll(scanned, Decimal(pid));
    return ParsedStruct(c);
  }

  /** `ScanHead` at position `i` of a token list. */
  lemma ScanAt(c: CommandValue, toks: seq<string>, i: nat)
    requires i < |toks| && HasHeadClause(toks[i..])
    ensures i + HeadLength(toks[i..]) <= |toks|
    ensures Scan(c, toks[i..]) ==
      Scan(ApplyClause(c, HeadClause(toks[i..])), toks[i + HeadLength(toks[i..])..])
  {
    ScanHead(c, toks[i..]);
    assert toks[i..][HeadLength(toks[i..])..] == toks[i + HeadLength(toks[i..])..];
  }

  /** The token loop of `parseCommand`, from the second token on: `i` is
      the position of `strtok`, `token` what it last returned. */
  method ScanTokens(c: CommandStruct, toks: seq<string>) returns (failure: Option<ParseError>)
    requires c.Valid() && |toks| > 0
    modifies c, c.argumentsArray
    ensures c.Valid() && c.NullTerminated()
    ensures c.argumentsArray == old(c.argumentsArray) || fresh(c.argumentsArray)
    ensures failure.Some? ==> Scan(old(c.Value()), toks[1..]) == Err(failure.value)
    ensures failure.None? ==> Scan(old(c.Value()), toks[1..]) == Ok(c.Value())
  {
    ghost var goal := Scan(c.Value(), toks[1..]);
    var i := 1;
    var token := TokenAt(toks, i);
    var finished := false;
    while token.Some? && !finished
      invariant 1 <= i <= |toks| && token == TokenAt(toks, i)
      invariant c.Valid()
      invariant c.argumentsArray == old(c.argumentsArray) || fresh(c.argumentsArray)
      invariant if finished then goal == Ok(c.Value()) else Scan(c.Value(), toks[i..]) == goal
      decreases |toks| - i, !finished
    {
      var step := ScanRound(c, toks, i);
      match step
      case Failed(e) =>
        return Some(e);
      case Stopped =>
        finished := true;
      case Next(j) =>
        i := j;
        token := TokenAt(toks, i);
    }
    return None;
  }

  datatype Round = Next(position: nat) | Stopped | Failed(error: ParseError)

  /** One round of the token loop, for the token at position `i`. */
  method ScanRound(c: CommandStruct, toks: seq<string>, i: nat) returns (r: Round)
    requires c.Valid() && i < |toks|
    modifies c, c.argumentsArray
    ensures c.Valid()
    ensures c.argumentsArray == old(c.argumentsArray) || fresh(c.argumentsArray)
    ensures r.Failed? ==> Scan(old(c.Value()), toks[i..]) == Err(r.error)
    ensures r.Stopped? ==> Scan(old(c.Value()), toks[i..]) == Ok(c.Value())
    ensures r.Next? ==> i < r.position <= |toks| && Scan(old(c.Value()), toks[i..]) == Scan(c.Value(), toks[r.position..])
  {
    ghost var before, at := c.Value(), toks[i..];
    var t := toks[i];
    var kind := Kind(t);
    if kind == InputOp {
      if i + 1 == |toks| {
        return Failed(MissingInputFile);
      }
      c.inputFile := Some(toks[i + 1]);
      r := Next(i + 2);
    } else if kind == OutputOp {
      if i + 1 == |toks| {
        return Failed(MissingOutputFile);
      }
      c.outputFile := Some(toks[i + 1]);
      r := Next(i + 2);
    } else if kind == BackgroundOp {
      c.isBackground := true;
      if i + 1 == |toks| {
        assert at == ["&"];
        return Stopped;
      }
      c.AddEmbeddedAmpersand(toks[i + 1]);
      r := Next(i + 2);
    } else {
      c.AddArgument(t);
      r := Next(i + 1);
    }
    ScanAt(before, toks, i);
  }
}
