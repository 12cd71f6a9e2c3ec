/** Worked lines, each proved by stepping through the model with its lemmas. */
module Scenarios {
  import opened Wrappers
  import opened Tokenizer
  import opened Command
  import opened Parser
  import opened Expansion
  import opened Format
  import opened Shell

  /** A trailing "&" marks the command as background and is dropped; an
      embedded "&" is kept together with the token after it, even when
      that token is an operator. */
  lemma AmpersandExamples()
    ensures Scan(Start("ls"), ["-l", "&"]) == Ok(CommandValue("ls", ["ls", "-l"], None, None, true))
    ensures Scan(Start("ls"), ["&", ">", "x"]) == Ok(CommandValue("ls", ["ls", "&", ">", "x"], None, None, false))
  {
    assert Kind("-l") == Plain by { assert "-l"[0] != "<"[0] && "-l"[0] != ">"[0] && "-l"[0] != "&"[0]; }
    assert Kind("&") == BackgroundOp by { assert "&"[0] != "<"[0] && "&"[0] != ">"[0]; }
    assert Kind("x") == Plain by { assert "x"[0] != "<"[0] && "x"[0] != ">"[0] && "x"[0] != "&"[0]; }
    var ls := Start("ls");
    ScanHead(ls, ["-l", "&"]);
    assert ["-l", "&"][1..] == ["&"];
    assert ApplyClause(ls, Word("-l")).arguments == ["ls", "-l"];
    ScanHead(ls, ["&", ">", "x"]);
    assert ["&", ">", "x"][2..] == ["x"];
    var c := ApplyClause(ls, LiteralAmpersand(">"));
    ScanHead(c, ["x"]);
    assert ["x"][1..] == [];
    assert ApplyClause(c, Word("x")).arguments == ["ls", "&", ">", "x"];
  }

  /** Runs of spaces collapse: "ls  -l &" has three tokens. */
  lemma TokenizingExample()
    ensures Tokens("ls  -l &") == ["ls", "-l", "&"]
  {
    var line, rest := "ls  -l &", "  -l &";
    assert line == "ls" + rest;
    WordLengthOfToken("ls", rest);
    assert line[..2] == "ls" && line[2..] == rest;
    assert Tokens(line) == ["ls"] + Tokens(rest);
    SpacedTail();
  }

  /** Leading spaces are skipped before "-l". */
  lemma SpacedTail()
    ensures Tokens("  -l &") == ["-l", "&"]
  {
    assert "  -l &" == "  " + "-l &";
    LeadingSpacesIgnored("  ", "-l &");
    assert JoinSpaces(["-l", "&"]) == "-l &";
    TokensOfJoin(["-l", "&"]);
  }

  /** Redirections set the files and add nothing to the arguments. */
  lemma RedirectionExample()
    ensures Scan(Start("sort"), ["<", "in.txt", ">", "out.txt"]) ==
      Ok(CommandValue("sort", ["sort"], Some("in.txt"), Some("out.txt"), false))
  {
  }

  /** Markers are replaced leftmost first without overlap. */
  lemma ExpansionExamples()
    ensures Expand("$$$", "42") == "42$"
    ensures Expand("a$$b$$", "1234") == "a1234b1234"
  {
  }

  /** After a foreground command exits with code 2, `status` reports it
      as a signal, since only 0 and 1 count as exit values. */
  lemma StatusAfterExitCodeTwo(s: LoopState, c: CommandValue, statusCmd: CommandValue, home: Option<string>)
    requires !IsBuiltin(c.command) && !c.isBackground && statusCmd.command == "status"
    ensures var s' := Dispatch(s, Parsed(c), home, Exited(2)).0;
      Dispatch(s', Parsed(statusCmd), home, Exited(0)).1 == ReportStatus("terminated by signal 2")
  {
  }
}
