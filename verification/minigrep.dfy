/** The `minigrep` line search: argument validation (`Config::new`), the search
    itself (`search`) and the run that feeds it an already loaded file (`run`). */
module Minigrep {
  import opened Wrappers
  import opened Text
  import Seqs

  /** Rust's `Config`: the query and the name of the file to search. */
  datatype Config = Config(query: String, filename: String)

  /** The error `Config::new` reports for a short argument list. */
  const NotEnoughArguments: String := "Not enough arguments"

  /** Rust's `Config::new`: `args[0]` is the program name, `args[1]` the query,
      `args[2]` the file name; anything after that is ignored. */
  function NewConfig(args: seq<String>): (r: Result<Config, String>)
    ensures r.Err? <==> |args| < 3
    ensures r.Err? ==> r.error == NotEnoughArguments
    ensures r.Ok? ==> r.value.query == args[1] && r.value.filename == args[2]
  {
    if |args| < 3 then Err(NotEnoughArguments)
    else Ok(Config(args[1], args[2]))
  }

  /** Arguments past the third never change the outcome. */
  lemma NewConfigIgnoresExtra(args: seq<String>, extra: seq<String>)
    requires |args| >= 3
    ensures NewConfig(args + extra) == NewConfig(args)
  {
    assert (args + extra)[1] == args[1] && (args + extra)[2] == args[2];
  }

  /** Every configuration is recovered from the command line that spells it out. */
  lemma NewConfigRoundTrip(program: String, c: Config)
    ensures NewConfig([program, c.query, c.filename]) == Ok(c)
  {
  }

  /** The test a line must pass to be reported: the query occurs in the untrimmed line. */
  function MatchesQuery(query: String): String -> bool {
    line => Contains(line, query)
  }

  /** Each line trimmed. */
  function TrimAll(ls: seq<String>): (r: seq<String>)
    ensures |r| == |ls|
    ensures forall k :: 0 <= k < |r| ==> r[k] == Trim(ls[k])
  {
    seq(|ls|, k requires 0 <= k < |ls| => Trim(ls[k]))
  }

  lemma TrimAllAppend(a: seq<String>, b: seq<String>)
    ensures TrimAll(a + b) == TrimAll(a) + TrimAll(b)
  {
  }

  /** What the search reports, described as a filter followed by a map: the matching
      lines of `contents`, in order, each trimmed. */
  function Matches(query: String, contents: String): seq<String> {
    TrimAll(Seqs.Filter(Lines(contents), MatchesQuery(query)))
  }

  /** One more line either adds its trimmed form to the result (when it matches) or nothing. */
  lemma MatchesStep(query: String, lines: seq<String>, i: nat)
    requires i < |lines|
    ensures TrimAll(Seqs.Filter(lines[..i + 1], MatchesQuery(query)))
         == TrimAll(Seqs.Filter(lines[..i], MatchesQuery(query)))
            + (if Contains(lines[i], query) then [Trim(lines[i])] else [])
  {
    var keep := MatchesQuery(query);
    var prev := Seqs.Filter(lines[..i], keep);
    assert lines[..i + 1] == lines[..i] + [lines[i]];
    Seqs.FilterSnoc(lines[..i], lines[i], keep);
    if Contains(lines[i], query) {
      TrimAllAppend(prev, [lines[i]]);
    }
  }

  /** Rust's `search`: walks the lines of `contents` and pushes the trimmed form of
      every line containing `query`. */
  method Search(query: String, contents: String) returns (results: seq<String>)
    ensures results == Matches(query, contents)
    ensures |results| <= |Lines(contents)|
    ensures query == [] ==> results == TrimAll(Lines(contents))
    ensures contents == [] ==> results == []
  {
    var lines := Lines(contents);
    results := [];
    var i := 0;
    while i < |lines|
      invariant 0 <= i <= |lines|
      invariant results == TrimAll(Seqs.Filter(lines[..i], MatchesQuery(query)))
    {
      MatchesStep(query, lines, i);
      if Contains(lines[i], query) {
        results := results + [Trim(lines[i])];
      }
      i := i + 1;
    }
    assert lines[..i] == lines;
    if query == [] {
      MatchesEmptyQuery(contents);
    }
  }

  /** The search, stated line by line: result `k` is the trimmed form of the `k`-th
      line that contains the query, the reported lines appear in their original order,
      and every line that contains the query is reported (so there is one result per
      matching line, duplicates included). */
  lemma MatchesCharacterized(query: String, contents: String)
    ensures var lines, idx := Lines(contents), Seqs.FilterIndices(Lines(contents), MatchesQuery(query));
      && |Matches(query, contents)| == |idx| <= |lines|
      && Seqs.Increasing(idx)
      && (forall k :: 0 <= k < |idx| ==>
            idx[k] < |lines| && Contains(lines[idx[k]], query)
            && Matches(query, contents)[k] == Trim(lines[idx[k]]))
      && (forall i :: 0 <= i < |lines| && Contains(lines[i], query) ==> i in idx)
  {
    Seqs.FilterIndexed(Lines(contents), MatchesQuery(query));
  }

  /** Every reported line is the trimmed form of a line of `contents` that contains the query. */
  lemma MatchesSound(query: String, contents: String, k: nat)
    requires k < |Matches(query, contents)|
    ensures exists i ::
      && 0 <= i < |Lines(contents)|
      && Contains(Lines(contents)[i], query)
      && Matches(query, contents)[k] == Trim(Lines(contents)[i])
  {
    MatchesCharacterized(query, contents);
    var idx := Seqs.FilterIndices(Lines(contents), MatchesQuery(query));
    assert Contains(Lines(contents)[idx[k]], query);
  }

  /** An empty query matches every line: the result is every line, trimmed, in order. */
  lemma MatchesEmptyQuery(contents: String)
    ensures Matches([], contents) == TrimAll(Lines(contents))
  {
    var lines := Lines(contents);
    forall k | 0 <= k < |lines| ensures MatchesQuery([])(lines[k]) {
      ContainsEmpty(lines[k]);
    }
    Seqs.FilterAll(lines, MatchesQuery([]));
  }

  /** Empty contents have no lines, so nothing is reported. */
  lemma MatchesEmptyContents(query: String)
    ensures Matches(query, []) == []
  {
  }

  /** The three lines of the crate's test text, and the text itself. */
  const PoemLine1: String := "Rust:"
  // The middle line is spelled in pieces around its "duct" so that the occurrence can be
  // exhibited by `ContainsInfix`; `PoemIsTestText` shows the pieces make the test's literal.
  const PoemLine2: String := "    " + "safe, fast, pro" + "duct" + "ive."
  const PoemLine3: String := "    Pick three."
  const Poem: String := PoemLine1 + "\n" + PoemLine2 + "\n" + PoemLine3

  lemma PoemPlain()
    ensures '\n' !in PoemLine1 && '\n' !in PoemLine2 && '\n' !in PoemLine3
    ensures StripCr(PoemLine1) == PoemLine1 && StripCr(PoemLine2) == PoemLine2
    ensures Poem == PoemLine1 + "\n" + (PoemLine2 + "\n" + PoemLine3)
  {
  }

  lemma PoemLines()
    ensures Lines(Poem) == [PoemLine1, PoemLine2, PoemLine3]
  {
    PoemPlain();
    LinesCons(PoemLine1, PoemLine2 + "\n" + PoemLine3);
    LinesCons(PoemLine2, PoemLine3);
    LinesSingle(PoemLine3);
  }

  /** The pieces spell the test's middle line exactly. */
  lemma PoemLine2IsTestLine()
    ensures PoemLine2 == "    safe, fast, productive."
  {
  }

  /** The test's text, one source line at a time. */
  lemma TestTextLines()
    ensures "Rust:\n    safe, fast, productive.\n    Pick three."
         == "Rust:\n" + "    safe, fast, productive.\n" + "    Pick three."
    ensures "Rust:\n" == PoemLine1 + "\n"
    ensures "    safe, fast, productive.\n" == "    safe, fast, productive." + "\n"
  {
  }

  /** The poem is the test's text exactly. */
  lemma PoemIsTestText()
    ensures Poem == "Rust:\n    safe, fast, productive.\n    Pick three."
  {
    PoemLine2IsTestLine();
    TestTextLines();
  }

  /** Only the middle line of the poem contains "duct". */
  lemma PoemMatches()
    ensures !MatchesQuery("duct")(PoemLine1)
    ensures MatchesQuery("duct")(PoemLine2)
    ensures !MatchesQuery("duct")(PoemLine3)
  {
    NotContainsMissingChar(PoemLine1, "duct");
    ContainsInfix("    " + "safe, fast, pro", "duct", "ive.");
    NotContainsMissingChar(PoemLine3, "duct");
  }

  /** Any test that keeps just the middle line of the poem filters it to that line. */
  lemma PoemFilter(p: String -> bool)
    requires !p(PoemLine1) && p(PoemLine2) && !p(PoemLine3)
    ensures Seqs.Filter([PoemLine1, PoemLine2, PoemLine3], p) == [PoemLine2]
  {
    var lines := [PoemLine1, PoemLine2, PoemLine3];
    assert lines[..2] == [PoemLine1, PoemLine2];
    assert lines[..2][..1] == [PoemLine1];
    assert lines[..2][..1][..0] == [];
    assert Seqs.Filter([PoemLine1], p) == [];
    assert Seqs.Filter([PoemLine1, PoemLine2], p) == [PoemLine2];
  }

  lemma PoemTrim()
    ensures Trim(PoemLine2) == "safe, fast, productive."
  {
    assert PoemLine2 == "    " + "safe, fast, productive.";
    TrimIndented("    ", "safe, fast, productive.");
  }

  /** The crate's own test: `"duct"` in the three-line poem yields just the middle line, trimmed. */
  lemma OneResult()
    ensures Matches("duct", "Rust:\n    safe, fast, productive.\n    Pick three.")
         == ["safe, fast, productive."]
  {
    PoemIsTestText();
    PoemLines();
    PoemMatches();
    PoemFilter(MatchesQuery("duct"));
    PoemTrim();
  }

  /** A failure to open or read the file. */
  datatype IoError = IoError(reason: String)

  /** Rust's `run`, with the file's contents (or the error from opening or reading it)
      supplied by the caller: on success the result is the sequence of lines printed. */
  function Run(config: Config, loaded: Result<String, IoError>): (r: Result<seq<String>, IoError>)
    ensures r.Err? <==> loaded.Err?
    ensures loaded.Err? ==> r.error == loaded.error
    ensures r.Ok? ==> r.value == Matches(config.query, loaded.value)
  {
    match loaded
    case Err(e) => Err(e)
    case Ok(contents) => Ok(Matches(config.query, contents))
  }
}
