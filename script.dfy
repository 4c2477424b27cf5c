/**
 * The text handling of the command-line tool's `simulate` command: a script
 * is cut into lines, each line is trimmed, skipped when empty or a comment,
 * split into whitespace-separated tokens and classified into one command,
 * or into an error naming its 1-based line number.
 */
module Script {
  import opened Wrappers
  import opened Decimal

  /** `char::is_whitespace`: the Unicode White_Space property. */
  predicate IsWhitespace(c: char)
  {
    ('\t' <= c <= '\r') || c == ' ' || c == '\U{0085}' || c == '\U{00A0}' || c == '\U{1680}'
    || ('\U{2000}' <= c <= '\U{200A}') || c == '\U{2028}' || c == '\U{2029}'
    || c == '\U{202F}' || c == '\U{205F}' || c == '\U{3000}'
  }

  predicate AllWhitespace(s: string)
  {
    forall i :: 0 <= i < |s| ==> IsWhitespace(s[i])
  }

  predicate NoWhitespace(s: string)
  {
    forall i :: 0 <= i < |s| ==> !IsWhitespace(s[i])
  }

  // ---------------------------------------------------------------------
  // str::lines
  // ---------------------------------------------------------------------

  /** Position of the first line feed in `s`, or `|s|` when there is none. */
  function LineEnd(s: string): (k: nat)
    ensures k <= |s|
    ensures forall i :: 0 <= i < k ==> s[i] != '\n'
    ensures k < |s| ==> s[k] == '\n'
  {
    if |s| == 0 || s[0] == '\n' then 0 else 1 + LineEnd(s[1..])
  }

  /** Drops one carriage return that stood just before a line feed. */
  function StripCr(line: string): string
  {
    if |line| > 0 && line[|line| - 1] == '\r' then line[..|line| - 1] else line
  }

  /**
   * `str::lines`: the pieces between line feeds, each without a `\r` that
   * preceded its `\n`; a final line ending is optional, so the empty text
   * has no lines and a text ending in `\n` has no empty last line.
   */
  function Lines(s: string): seq<string>
    decreases |s|
  {
    if |s| == 0 then []
    else
      var k := LineEnd(s);
      if k == |s| then [s] else [StripCr(s[..k])] + Lines(s[k + 1..])
  }

  /** A line that `lines` can give back unchanged. */
  predicate PlainLine(line: string)
  {
    (forall i :: 0 <= i < |line| ==> line[i] != '\n')
    && (|line| > 0 ==> line[|line| - 1] != '\r')
  }

  /** The text of `lines`, each followed by the terminator `eol`. */
  function Terminated(lines: seq<string>, eol: string): string
  {
    if |lines| == 0 then "" else lines[0] + eol + Terminated(lines[1..], eol)
  }

  lemma {:induction false} LineEndAfter(p: string, rest: string)
    requires forall i :: 0 <= i < |p| ==> p[i] != '\n'
    ensures LineEnd(p + "\n" + rest) == |p|
  {
    if |p| > 0 {
      assert (p + "\n" + rest)[1..] == p[1..] + "\n" + rest;
      LineEndAfter(p[1..], rest);
    }
  }

  /** The first line of a terminated text is its first line, and the rest follows. */
  lemma LinesHead(l: string, eol: string, rest: string)
    requires eol == "\n" || eol == "\r\n"
    requires PlainLine(l)
    ensures Lines(l + eol + rest) == [l] + Lines(rest)
  {
    var body := if eol == "\n" then l else l + "\r";
    var s := l + eol + rest;
    assert s == body + "\n" + rest;
    assert StripCr(body) == l by {
      if eol != "\n" {
        assert body[..|body| - 1] == l;
      }
    }
    LinesSplitAt(body, rest);
  }

  /** A line feed after a piece without one ends the first line. */
  lemma LinesSplitAt(body: string, rest: string)
    requires forall i :: 0 <= i < |body| ==> body[i] != '\n'
    ensures Lines(body + "\n" + rest) == [StripCr(body)] + Lines(rest)
  {
    var s := body + "\n" + rest;
    LineEndAfter(body, rest);
    assert s[..|body|] == body;
    assert s[|body| + 1..] == rest;
  }

  /** Splitting lines that end in `\n` or in `\r\n` gives the lines back. */
  lemma {:induction false} LinesOfTerminated(lines: seq<string>, eol: string)
    requires eol == "\n" || eol == "\r\n"
    requires forall i :: 0 <= i < |lines| ==> PlainLine(lines[i])
    ensures Lines(Terminated(lines, eol)) == lines
  {
    if |lines| > 0 {
      LinesHead(lines[0], eol, Terminated(lines[1..], eol));
      LinesOfTerminated(lines[1..], eol);
    }
  }

  // ---------------------------------------------------------------------
  // str::trim
  // ---------------------------------------------------------------------

  /** The number of whitespace characters `s` starts with. */
  function LeadingWhitespace(s: string): (k: nat)
    ensures k <= |s|
    ensures forall i :: 0 <= i < k ==> IsWhitespace(s[i])
    ensures k < |s| ==> !IsWhitespace(s[k])
  {
    if |s| == 0 || !IsWhitespace(s[0]) then 0 else 1 + LeadingWhitespace(s[1..])
  }

  /** Where the whitespace that `s` ends with begins. */
  function TrailingWhitespace(s: string): (k: nat)
    ensures k <= |s|
    ensures forall i :: k <= i < |s| ==> IsWhitespace(s[i])
    ensures k > 0 ==> !IsWhitespace(s[k - 1])
  {
    if |s| == 0 || !IsWhitespace(s[|s| - 1]) then |s| else TrailingWhitespace(s[..|s| - 1])
  }

  /** `trim`: leading and trailing whitespace removed. */
  function Trim(s: string): string
  {
    var t := s[LeadingWhitespace(s)..];
    t[..TrailingWhitespace(t)]
  }

  /**
   * The trimmed text is the stretch of `s` between a whitespace prefix and a
   * whitespace suffix, and it neither starts nor ends with whitespace.
   */
  lemma TrimSpec(s: string)
    ensures exists i, j :: 0 <= i <= j <= |s| && Trim(s) == s[i..j]
                           && AllWhitespace(s[..i]) && AllWhitespace(s[j..])
    ensures |Trim(s)| > 0 ==> !IsWhitespace(Trim(s)[0]) && !IsWhitespace(Trim(s)[|Trim(s)| - 1])
  {
    var i := LeadingWhitespace(s);
    var t := s[i..];
    var j := i + TrailingWhitespace(t);
    assert Trim(s) == s[i..j];
    assert AllWhitespace(s[..i]);
    assert forall k :: 0 <= k < |s[j..]| ==> s[j..][k] == t[j - i + k];
    assert AllWhitespace(s[j..]);
  }

  /** Trimming leaves nothing exactly when the text is all whitespace. */
  lemma TrimEmptyIff(s: string)
    ensures Trim(s) == "" <==> AllWhitespace(s)
  {
    var i := LeadingWhitespace(s);
    var t := s[i..];
    if Trim(s) == "" {
      assert TrailingWhitespace(t) == 0;
      assert i == |s|;
    }
  }

  /** Text with no whitespace at either end is left alone. */
  lemma TrimUnchanged(s: string)
    requires |s| > 0 && !IsWhitespace(s[0]) && !IsWhitespace(s[|s| - 1])
    ensures Trim(s) == s
  {
    assert s[0..] == s;
  }

  // ---------------------------------------------------------------------
  // str::split_whitespace
  // ---------------------------------------------------------------------

  /** The length of the longest prefix of `s` without whitespace. */
  function WordEnd(s: string): (k: nat)
    ensures k <= |s|
    ensures forall i :: 0 <= i < k ==> !IsWhitespace(s[i])
    ensures k < |s| ==> IsWhitespace(s[k])
  {
    if |s| == 0 || IsWhitespace(s[0]) then 0 else 1 + WordEnd(s[1..])
  }

  /** `split_whitespace`: the maximal runs of non-whitespace, in order. */
  function SplitWhitespace(s: string): (parts: seq<string>)
    ensures forall i :: 0 <= i < |parts| ==> |parts[i]| > 0 && NoWhitespace(parts[i])
    decreases |s|
  {
    var t := s[LeadingWhitespace(s)..];
    if |t| == 0 then []
    else
      var k := WordEnd(t);
      [t[..k]] + SplitWhitespace(t[k..])
  }

  /** The tokens separated by single spaces. */
  function Joined(tokens: seq<string>): string
  {
    if |tokens| == 0 then ""
    else if |tokens| == 1 then tokens[0]
    else tokens[0] + " " + Joined(tokens[1..])
  }

  predicate Token(w: string)
  {
    |w| > 0 && NoWhitespace(w)
  }

  /** A text that is all whitespace has no tokens, and the converse. */
  lemma SplitEmptyIff(s: string)
    ensures SplitWhitespace(s) == [] <==> AllWhitespace(s)
  {
  }

  lemma SplitSkipsWhitespace(c: char, s: string)
    requires IsWhitespace(c)
    ensures SplitWhitespace([c] + s) == SplitWhitespace(s)
  {
    var cs := [c] + s;
    assert cs[1..] == s;
    assert LeadingWhitespace(cs) == 1 + LeadingWhitespace(s);
    assert cs[LeadingWhitespace(cs)..] == s[LeadingWhitespace(s)..];
  }

  lemma WordEndBeforeSpace(w: string, rest: string)
    requires NoWhitespace(w)
    ensures WordEnd(w + " " + rest) == |w|
  {
    var s := w + " " + rest;
    assert forall i :: 0 <= i < |w| ==> s[i] == w[i];
    assert s[|w|] == ' ';
  }

  lemma SplitSingle(w: string)
    requires Token(w)
    ensures SplitWhitespace(w) == [w]
  {
    assert LeadingWhitespace(w) == 0;
    assert w[0..] == w;
    assert WordEnd(w) == |w|;
    assert w[..|w|] == w;
    assert w[|w|..] == "";
  }

  /** A token followed by a space is split off first. */
  lemma SplitHead(w: string, rest: string)
    requires Token(w)
    ensures SplitWhitespace(w + " " + rest) == [w] + SplitWhitespace(rest)
  {
    var s := w + " " + rest;
    assert s[0] == w[0];
    assert LeadingWhitespace(s) == 0;
    assert s[0..] == s;
    WordEndBeforeSpace(w, rest);
    assert s[..|w|] == w;
    assert s[|w|..] == [' '] + rest;
    SplitSkipsWhitespace(' ', rest);
  }

  /** Splitting space-joined tokens gives the tokens back. */
  lemma {:induction false} SplitJoined(tokens: seq<string>)
    requires forall i :: 0 <= i < |tokens| ==> Token(tokens[i])
    ensures SplitWhitespace(Joined(tokens)) == tokens
  {
    if |tokens| == 1 {
      SplitSingle(tokens[0]);
    } else if |tokens| > 1 {
      var tail := tokens[1..];
      assert Joined(tokens) == tokens[0] + " " + Joined(tail);
      assert Token(tokens[0]);
      SplitHead(tokens[0], Joined(tail));
      assert forall i :: 0 <= i < |tail| ==> Token(tail[i]) by {
        forall i | 0 <= i < |tail| ensures Token(tail[i]) {
          assert tail[i] == tokens[i + 1];
        }
      }
      SplitJoined(tail);
      assert [tokens[0]] + tail == tokens;
    }
  }

  /** The text `gaps[0] + tokens[0] + gaps[1] + ... + tokens[n - 1] + gaps[n]`. */
  function Interleave(tokens: seq<string>, gaps: seq<string>): string
    requires |gaps| == |tokens| + 1
  {
    if |tokens| == 0 then gaps[0] else gaps[0] + tokens[0] + Interleave(tokens[1..], gaps[1..])
  }

  /** Whitespace runs around tokens: non-empty between two tokens, possibly empty at both ends. */
  predicate Separators(tokens: seq<string>, gaps: seq<string>)
  {
    && |gaps| == |tokens| + 1
    && (forall i :: 0 <= i < |gaps| ==> AllWhitespace(gaps[i]))
    && (forall i :: 0 < i < |tokens| ==> |gaps[i]| > 0)
  }

  /** A run of whitespace in front of a text adds no token. */
  lemma {:induction false} SplitSkipsRun(g: string, s: string)
    requires AllWhitespace(g)
    ensures SplitWhitespace(g + s) == SplitWhitespace(s)
  {
    if |g| > 0 {
      assert g + s == [g[0]] + (g[1..] + s);
      assert AllWhitespace(g[1..]) by {
        forall i | 0 <= i < |g[1..]| ensures IsWhitespace(g[1..][i]) {
          assert g[1..][i] == g[i + 1];
        }
      }
      SplitSkipsRun(g[1..], s);
      SplitSkipsWhitespace(g[0], g[1..] + s);
    } else {
      assert g + s == s;
    }
  }

  /** A word followed by the end of the text or by whitespace ends where it stops. */
  lemma WordEndBeforeRun(w: string, s: string)
    requires NoWhitespace(w) && (|s| == 0 || IsWhitespace(s[0]))
    ensures WordEnd(w + s) == |w|
  {
    var t := w + s;
    assert forall i :: 0 <= i < |w| ==> t[i] == w[i];
    if |s| > 0 {
      assert t[|w|] == s[0];
    }
  }

  /** A token followed by the end of the text or by whitespace is split off first. */
  lemma SplitHeadRun(w: string, s: string)
    requires Token(w) && (|s| == 0 || IsWhitespace(s[0]))
    ensures SplitWhitespace(w + s) == [w] + SplitWhitespace(s)
  {
    var t := w + s;
    assert t[0] == w[0];
    assert LeadingWhitespace(t) == 0;
    assert t[0..] == t;
    WordEndBeforeRun(w, s);
    assert t[..|w|] == w;
    assert t[|w|..] == s;
  }

  /** Dropping the first token and the run before it leaves separated tokens again. */
  lemma SpacedTail(tokens: seq<string>, gaps: seq<string>)
    requires |tokens| > 0 && forall i :: 0 <= i < |tokens| ==> Token(tokens[i])
    requires Separators(tokens, gaps)
    ensures forall i :: 0 <= i < |tokens| - 1 ==> Token(tokens[1..][i])
    ensures Separators(tokens[1..], gaps[1..])
  {
    var tail, rest := tokens[1..], gaps[1..];
    forall i | 0 <= i < |tail| ensures Token(tail[i]) {
      assert tail[i] == tokens[i + 1];
    }
    forall i | 0 <= i < |rest| ensures AllWhitespace(rest[i]) {
      assert rest[i] == gaps[i + 1];
    }
    forall i | 0 < i < |tail| ensures |rest[i]| > 0 {
      assert rest[i] == gaps[i + 1];
    }
  }

  /** After the first token comes the end of the text or whitespace. */
  lemma SpacedHead(tokens: seq<string>, gaps: seq<string>)
    requires |tokens| > 0 && Separators(tokens, gaps)
    ensures var s := Interleave(tokens[1..], gaps[1..]);
      (|s| == 0 || IsWhitespace(s[0])) && Interleave(tokens, gaps) == gaps[0] + (tokens[0] + s)
  {
    var s := Interleave(tokens[1..], gaps[1..]);
    if |tokens| == 1 {
      assert s == gaps[1];
    } else {
      assert |gaps[1]| > 0 && AllWhitespace(gaps[1]);
      assert s[0] == gaps[1][0];
    }
  }

  /**
   * Splitting tokens separated by any runs of whitespace, with optional
   * whitespace before the first and after the last, gives the tokens back.
   */
  lemma {:induction false} SplitSpaced(tokens: seq<string>, gaps: seq<string>)
    requires forall i :: 0 <= i < |tokens| ==> Token(tokens[i])
    requires Separators(tokens, gaps)
    ensures SplitWhitespace(Interleave(tokens, gaps)) == tokens
  {
    if |tokens| == 0 {
      SplitEmptyIff(gaps[0]);
    } else {
      SpacedTail(tokens, gaps);
      SpacedHead(tokens, gaps);
      var s := Interleave(tokens[1..], gaps[1..]);
      SplitSpaced(tokens[1..], gaps[1..]);
      SplitSkipsRun(gaps[0], tokens[0] + s);
      SplitHeadRun(tokens[0], s);
      assert [tokens[0]] + tokens[1..] == tokens;
    }
  }

  lemma {:induction false} JoinedEnds(tokens: seq<string>)
    requires |tokens| > 0
    requires forall i :: 0 <= i < |tokens| ==> Token(tokens[i])
    ensures var s := Joined(tokens); |s| > 0 && !IsWhitespace(s[0]) && !IsWhitespace(s[|s| - 1])
  {
    assert Token(tokens[0]);
    if |tokens| > 1 {
      JoinedEnds(tokens[1..]);
    }
  }

  // ---------------------------------------------------------------------
  // Classification of one script line
  // ---------------------------------------------------------------------

  /** A command a script line asks for. */
  datatype Command =
    | NewGame(players: nat, seed: nat)
    | DrawFor(player: nat)
    | StayFor(player: nat)
    | ShowState

  /** What the loop does with one line: nothing, run a command, or stop with an error. */
  datatype LineAction =
    | Skip
    | Run(command: Command)
    | Reject(message: string)

  const DefaultPlayers: nat := 2
  const DefaultSeed: nat := 42

  /** The suffix every line error carries; `lineNum` counts from 0. */
  function OnLine(lineNum: nat): string
  {
    " on line " + ToDecimal(lineNum + 1)
  }

  /** The dispatch on the first token of a non-empty, non-comment line. */
  function ClassifyTokens(parts: seq<string>, lineNum: nat): LineAction
  {
    if |parts| == 0 then Skip
    else if parts[0] == "new" then
      var players := if |parts| > 1 then ParseUnsigned(parts[1], UsizeMax) else Some(DefaultPlayers);
      if players.None? then Reject("Invalid player count" + OnLine(lineNum))
      else
        var seed := if |parts| > 2 then ParseUnsigned(parts[2], U64Max) else Some(DefaultSeed);
        if seed.None? then Reject("Invalid seed" + OnLine(lineNum))
        else Run(NewGame(players.value, seed.value))
    else if parts[0] == "draw" || parts[0] == "stay" then
      if |parts| < 2 then Reject("Missing player argument" + OnLine(lineNum))
      else
        match ParseUnsigned(parts[1], UsizeMax)
        case None => Reject("Invalid player ID" + OnLine(lineNum))
        case Some(p) => Run(if parts[0] == "draw" then DrawFor(p) else StayFor(p))
    else if parts[0] == "state" then Run(ShowState)
    else Reject("Unknown command '" + parts[0] + "'" + OnLine(lineNum))
  }

  /** One line of a script, the `lineNum`-th counting from 0. */
  function ClassifyLine(line: string, lineNum: nat): LineAction
  {
    var t := Trim(line);
    if |t| == 0 || t[0] == '#' then Skip
    else ClassifyTokens(SplitWhitespace(t), lineNum)
  }

  /** The action of every line of a script, in order. */
  function ClassifyAll(lines: seq<string>): (actions: seq<LineAction>)
    ensures |actions| == |lines|
  {
    if |lines| == 0 then []
    else ClassifyAll(lines[..|lines| - 1]) + [ClassifyLine(lines[|lines| - 1], |lines| - 1)]
  }

  /** Line `k` is classified as the `k`-th line, counting from 0. */
  lemma {:induction false} ClassifyAllAt(lines: seq<string>, k: nat)
    requires k < |lines|
    ensures ClassifyAll(lines)[k] == ClassifyLine(lines[k], k)
  {
    if k < |lines| - 1 {
      ClassifyAllAt(lines[..|lines| - 1], k);
    }
  }

  /**
   * A line is skipped exactly when it is blank after trimming or starts
   * with `#` there; the check for an empty token list after that never fires.
   */
  lemma ClassifySkipIff(line: string, lineNum: nat)
    ensures ClassifyLine(line, lineNum) == Skip
            <==> (Trim(line) == "" || Trim(line)[0] == '#')
  {
    var t := Trim(line);
    if |t| > 0 && t[0] != '#' {
      TrimSpec(line);
      SplitEmptyIff(t);
      assert !AllWhitespace(t) by { assert !IsWhitespace(t[0]); }
      TokensNeverSkip(SplitWhitespace(t), lineNum);
    }
  }

  lemma TokensNeverSkip(parts: seq<string>, lineNum: nat)
    requires parts != []
    ensures ClassifyTokens(parts, lineNum) != Skip
  {
  }

  /** Every error names the 1-based number of its line at its end. */
  lemma RejectNamesLine(line: string, lineNum: nat)
    requires ClassifyLine(line, lineNum).Reject?
    ensures exists what :: ClassifyLine(line, lineNum).message == what + OnLine(lineNum)
  {
    TokensRejectNameLine(SplitWhitespace(Trim(line)), lineNum);
  }

  lemma TokensRejectNameLine(parts: seq<string>, lineNum: nat)
    requires ClassifyTokens(parts, lineNum).Reject?
    ensures exists what :: ClassifyTokens(parts, lineNum).message == what + OnLine(lineNum)
  {
    var m := ClassifyTokens(parts, lineNum).message;
    var what: string;
    if parts[0] == "new" {
      if |parts| > 1 && ParseUnsigned(parts[1], UsizeMax).None? {
        what := "Invalid player count";
      } else {
        what := "Invalid seed";
      }
    } else if parts[0] == "draw" || parts[0] == "stay" {
      if |parts| < 2 {
        what := "Missing player argument";
      } else {
        what := "Invalid player ID";
      }
    } else {
      what := "Unknown command '" + parts[0] + "'";
    }
    assert m == what + OnLine(lineNum);
  }

  /** `new` with its arguments left out starts 2 players with seed 42. */
  lemma NewDefaults(p: nat, lineNum: nat)
    requires p <= UsizeMax
    ensures ClassifyTokens(["new"], lineNum) == Run(NewGame(DefaultPlayers, DefaultSeed))
    ensures ClassifyTokens(["new", ToDecimal(p)], lineNum) == Run(NewGame(p, DefaultSeed))
  {
    ParseToDecimal(p, UsizeMax);
  }

  /** `new` refuses a count that does not parse, and then a seed that does not parse. */
  lemma NewArgumentErrors(count: string, seed: string, rest: seq<string>, lineNum: nat)
    ensures ParseUnsigned(count, UsizeMax).None? ==>
      ClassifyTokens(["new", count] + rest, lineNum) == Reject("Invalid player count" + OnLine(lineNum))
    ensures ParseUnsigned(count, UsizeMax).Some? && ParseUnsigned(seed, U64Max).None? ==>
      ClassifyTokens(["new", count, seed] + rest, lineNum) == Reject("Invalid seed" + OnLine(lineNum))
  {
    var short, long := ["new", count] + rest, ["new", count, seed] + rest;
    assert short[0] == "new" && short[1] == count;
    assert long[0] == "new" && long[1] == count && long[2] == seed;
  }

  /** A first token that names no command is refused, quoting it. */
  lemma UnknownCommand(parts: seq<string>, lineNum: nat)
    requires |parts| > 0
    requires parts[0] != "new" && parts[0] != "draw" && parts[0] != "stay" && parts[0] != "state"
    ensures ClassifyTokens(parts, lineNum) == Reject("Unknown command '" + parts[0] + "'" + OnLine(lineNum))
  {
  }

  /**
   * Tokens after the ones a command reads do not change the outcome: after
   * the third for `new`, after the second for `draw` and `stay`, and after
   * the first for `state`.
   */
  lemma ExtraTokensIgnored(parts: seq<string>, extra: seq<string>, lineNum: nat)
    requires |parts| > 0
    ensures |parts| >= 3 ==> ClassifyTokens(parts + extra, lineNum) == ClassifyTokens(parts, lineNum)
    ensures (parts[0] == "draw" || parts[0] == "stay") && |parts| >= 2 ==>
      ClassifyTokens(parts + extra, lineNum) == ClassifyTokens(parts, lineNum)
    ensures parts[0] == "state" ==>
      ClassifyTokens(parts + extra, lineNum) == ClassifyTokens(parts, lineNum) == Run(ShowState)
  {
    assert (parts + extra)[0] == parts[0];
    if |parts| >= 2 {
      assert (parts + extra)[1] == parts[1];
    }
    if |parts| >= 3 {
      assert (parts + extra)[2] == parts[2];
    }
  }

  /** `draw` and `stay` reject a missing or a non-numeric player. */
  lemma PlayerArgumentErrors(verb: string, arg: string, lineNum: nat)
    requires verb == "draw" || verb == "stay"
    ensures ClassifyTokens([verb], lineNum) == Reject("Missing player argument" + OnLine(lineNum))
    ensures ParseUnsigned(arg, UsizeMax).None?
            ==> ClassifyTokens([verb, arg], lineNum) == Reject("Invalid player ID" + OnLine(lineNum))
  {
  }

  /** The tokens a command is written with. */
  function Words(c: Command): seq<string>
  {
    match c
    case NewGame(players, seed) => ["new", ToDecimal(players), ToDecimal(seed)]
    case DrawFor(p) => ["draw", ToDecimal(p)]
    case StayFor(p) => ["stay", ToDecimal(p)]
    case ShowState => ["state"]
  }

  predicate InRange(c: Command)
  {
    match c
    case NewGame(players, seed) => players <= UsizeMax && seed <= U64Max
    case DrawFor(p) => p <= UsizeMax
    case StayFor(p) => p <= UsizeMax
    case ShowState => true
  }

  /** A line of space-joined tokens is classified by its tokens. */
  lemma ClassifyJoined(tokens: seq<string>, lineNum: nat)
    requires |tokens| > 0 && forall i :: 0 <= i < |tokens| ==> Token(tokens[i])
    requires Token(tokens[0]) && tokens[0][0] != '#'
    ensures ClassifyLine(Joined(tokens), lineNum) == ClassifyTokens(tokens, lineNum)
  {
    JoinedEnds(tokens);
    var s := Joined(tokens);
    TrimUnchanged(s);
    SplitJoined(tokens);
    assert s[0] == tokens[0][0];
  }

  lemma ClassifyWords(c: Command, lineNum: nat)
    requires InRange(c)
    ensures ClassifyTokens(Words(c), lineNum) == Run(c)
  {
    match c
    case NewGame(players, seed) =>
      ParseToDecimal(players, UsizeMax);
      ParseToDecimal(seed, U64Max);
    case DrawFor(p) =>
      ParseToDecimal(p, UsizeMax);
    case StayFor(p) =>
      ParseToDecimal(p, UsizeMax);
    case ShowState =>
  }

  /** The words of a command are tokens, and the first is a command name. */
  lemma WordsAreTokens(c: Command)
    ensures |Words(c)| > 0 && forall i :: 0 <= i < |Words(c)| ==> Token(Words(c)[i])
    ensures Token(Words(c)[0]) && Words(c)[0][0] != '#'
  {
    var ws := Words(c);
    forall i | 0 <= i < |ws|
      ensures Token(ws[i])
    {
      if i > 0 {
        var n := match c
          case NewGame(players, seed) => if i == 1 then players else seed
          case DrawFor(p) => p
          case StayFor(p) => p
          case ShowState => 0;
        assert ws[i] == ToDecimal(n);
      }
    }
  }

  /** A command written out on a line of its own is read back as that command. */
  lemma ClassifyWritten(c: Command, lineNum: nat)
    requires InRange(c)
    ensures ClassifyLine(Joined(Words(c)), lineNum) == Run(c)
  {
    WordsAreTokens(c);
    ClassifyJoined(Words(c), lineNum);
    ClassifyWords(c, lineNum);
  }
}
