/**
 * The terminal client's command dispatcher and input history (p2p.py,
 * class `ChatApp`): `commandHandler` turns a line typed after '/' into a call
 * of one of the table's handlers, and `historyBack`, `historyForward` and
 * `sendMessage` move the integer cursor `historyPos` over `historyLog`.
 */
module Terminal {
  import opened Wrappers

  // ------------------------------------------------------------ Python helpers

  predicate StartsWith(s: string, prefix: string) {
    |prefix| <= |s| && s[..|prefix|] == prefix
  }

  /** Python's `s[k:]`: a start past the end gives the empty string. */
  function DropPrefix(s: string, k: nat): string {
    if k <= |s| then s[k..] else []
  }

  /**
   * Python's `xs[i]`: a negative index counts from the end, and an index
   * outside `-len(xs) <= i < len(xs)` raises IndexError (here `None`).
   */
  function PyIndex<T>(xs: seq<T>, i: int): Option<T> {
    if 0 <= i < |xs| then Some(xs[i])
    else if -|xs| <= i < 0 then Some(xs[|xs| + i])
    else None
  }

  /**
   * Python's `s.split(' ')`: cut at every single space; two spaces in a row,
   * or a space at either end, give empty tokens, and there is always at least
   * one token.
   */
  function Split(s: string): (tokens: seq<string>)
    ensures |tokens| >= 1
    ensures forall i :: 0 <= i < |tokens| ==> ' ' !in tokens[i]
  {
    if s == [] then [[]]
    else
      var rest := Split(s[1..]);
      if s[0] == ' ' then [[]] + rest
      else [[s[0]] + rest[0]] + rest[1..]
  }

  /** Each token preceded by one space. */
  function Spaced(tokens: seq<string>): string {
    if tokens == [] then [] else " " + tokens[0] + Spaced(tokens[1..])
  }

  /** Python's `' '.join(tokens)`. */
  function Join(tokens: seq<string>): string
    requires |tokens| >= 1
  {
    tokens[0] + Spaced(tokens[1..])
  }

  predicate NoSpaces(tokens: seq<string>) {
    forall i :: 0 <= i < |tokens| ==> ' ' !in tokens[i]
  }

  lemma {:induction false} SplitSpace(s: string)
    ensures Split(" " + s) == [[]] + Split(s)
  {
    assert (" " + s)[1..] == s;
  }

  /** A space-free word in front of `s` glues onto the first token of `s`. */
  lemma {:induction false} SplitPrefix(w: string, s: string)
    requires ' ' !in w
    ensures Split(w + s) == [w + Split(s)[0]] + Split(s)[1..]
  {
    var tokens := Split(s);
    if w == [] {
      assert w + s == s && w + tokens[0] == tokens[0];
      assert tokens == [tokens[0]] + tokens[1..];
    } else {
      assert (w + s)[0] == w[0];
      assert (w + s)[1..] == w[1..] + s;
      SplitPrefix(w[1..], s);
      var rest := Split(w[1..] + s);
      assert rest[0] == w[1..] + tokens[0] && rest[1..] == tokens[1..];
      assert [w[0]] + (w[1..] + tokens[0]) == w + tokens[0];
    }
  }

  /** Joining the tokens with single spaces gives back the line. */
  lemma {:induction false} SplitJoin(s: string)
    ensures Join(Split(s)) == s
  {
    if s != [] {
      var rest := Split(s[1..]);
      SplitJoin(s[1..]);
      if s[0] == ' ' {
        assert Split(s) == [[]] + rest;
        assert Spaced(rest) == " " + Join(rest);
      } else {
        var tokens := Split(s);
        assert tokens[0] == [s[0]] + rest[0] && tokens[1..] == rest[1..];
        assert Join(tokens) == [s[0]] + (rest[0] + Spaced(rest[1..]));
      }
    }
  }

  /** Splitting a line joined from space-free tokens gives back the tokens. */
  lemma {:induction false} JoinSplit(tokens: seq<string>)
    requires |tokens| >= 1 && NoSpaces(tokens)
    ensures Split(Join(tokens)) == tokens
  {
    if |tokens| == 1 {
      SplitPrefix(tokens[0], []);
      assert tokens[0] + [] == tokens[0];
    } else {
      var tail := tokens[1..];
      JoinSplit(tail);
      assert Spaced(tail) == " " + Join(tail);
      SplitPrefix(tokens[0], " " + Join(tail));
      SplitSpace(Join(tail));
      assert tokens[0] + [] == tokens[0];
      assert tokens == [tokens[0]] + tail;
    }
  }

  /** The first token is the line up to its first space. */
  lemma FirstTokenIsPrefix(s: string)
    ensures |Split(s)[0]| <= |s| && s[..|Split(s)[0]|] == Split(s)[0]
  {
    SplitJoin(s);
    var t := Split(s);
    assert s == t[0] + Spaced(t[1..]);
  }

  // ------------------------------------------------------------ command table

  /**
   * `commandDict`: every command with the number of arguments its handler
   * takes; 0 means "called with no arguments", -1 marks `eval`, which the
   * dispatcher handles before the table.
   */
  const Arity: map<string, int> := map[
    "connect" := 2, "disconnect" := 0, "nickname" := 1, "quit" := 0,
    "port" := 1, "connectback" := 0, "clear" := 0, "eval" := -1,
    "status" := 0, "log" := 0, "help" := 0, "flowei" := 0, "lang" := 1,
    "sendfile" := 1, "video" := 0, "acceptfile" := 0, "rejectfile" := 0,
    "listfiles" := 0]

  /** `commandAliasDict`: short names for commands. */
  const Aliases: map<string, string> := map[
    "nick" := "nickname", "conn" := "connect", "q" := "quit",
    "connback" := "connectback", "sf" := "sendfile", "v" := "video",
    "af" := "acceptfile", "rf" := "rejectfile", "lf" := "listfiles"]

  /** One alias lookup; the result is not looked up again. */
  function Resolve(name: string): string {
    if name in Aliases then Aliases[name] else name
  }

  /** Every alias names a command of the table other than `eval`, and `eval` has no alias. */
  lemma AliasTargets()
    ensures forall a :: a in Aliases ==> Aliases[a] in Arity && Aliases[a] != "eval"
    ensures "eval" !in Aliases
  {
    forall a | a in Aliases
      ensures Aliases[a] in Arity && Aliases[a] != "eval"
    {
      assert a == "nick" || a == "conn" || a == "q" || a == "connback" || a == "sf"
        || a == "v" || a == "af" || a == "rf" || a == "lf";
    }
  }

  /** What `commandHandler` does with a line. */
  datatype Dispatch =
    | Eval(code: string)                              // evalCode(msg[6:])
    | NotFound                                        // sysMsg(commandNotFound)
    | Call0(command: string)                          // handler()
    | CallWith(command: string, args: seq<string>)    // handler(args)
    | WrongSyntax(command: string, expected: int, given: nat)  // sysMsg(commandWrongSyntax)

  /**
   * `commandHandler(msg)`. A line starting with "/eval" is evaluated from its
   * seventh character on; any other is split at spaces, the first token
   * minus its first character is the command (after one alias lookup) and
   * the other tokens, empty ones included, are the arguments.
   */
  function CommandHandler(msg: string): (d: Dispatch)
    ensures d.Eval? <==> StartsWith(msg, "/eval")
    ensures d.Call0? ==> d.command in Arity && Arity[d.command] == 0
    ensures d.CallWith? ==> d.command in Arity && 0 < Arity[d.command] == |d.args|
    ensures d.WrongSyntax? ==> d.command in Arity && d.expected == Arity[d.command] != 0 && d.given != d.expected
  {
    if StartsWith(msg, "/eval") then Eval(DropPrefix(msg, 6))
    else
      var tokens := Split(msg);
      var command := Resolve(DropPrefix(tokens[0], 1));
      var args := tokens[1..];
      if command !in Arity then NotFound
      else if Arity[command] == 0 then Call0(command)
      else if |args| == Arity[command] then CallWith(command, args)
      else WrongSyntax(command, Arity[command], |args|)
  }

  /** A line "/" + name never starts with "/eval" unless the name starts with "eval". */
  lemma {:induction false} NotEvalLine(name: string, args: seq<string>)
    requires !StartsWith(name, "eval")
    ensures !StartsWith("/" + name + Spaced(args), "/eval")
  {
    var msg := "/" + name + Spaced(args);
    if |name| >= 4 {
      assert msg[1..5] == name[..4];
    } else if |msg| >= 5 {
      assert args != [];
      assert msg[1 + |name|] == ' ';
    }
  }

  /**
   * Typing "/name a1 ... an" (single spaces, space-free words) dispatches the
   * command `name` resolves to: to no handler when it is not in the table,
   * to the handler without arguments when its arity is 0 whatever follows,
   * to the handler with exactly [a1, ..., an] when n is its arity, and
   * otherwise to a wrong-syntax report with both counts.
   */
  lemma {:induction false} TypedCommand(name: string, args: seq<string>)
    requires ' ' !in name && NoSpaces(args) && !StartsWith(name, "eval")
    ensures var c := Resolve(name); var d := CommandHandler("/" + name + Spaced(args));
      && (c !in Arity <==> d == NotFound)
      && (c in Arity && Arity[c] == 0 ==> d == Call0(c))
      && (c in Arity && Arity[c] != 0 && Arity[c] == |args| ==> d == CallWith(c, args))
      && (c in Arity && Arity[c] != 0 && Arity[c] != |args| ==> d == WrongSyntax(c, Arity[c], |args|))
  {
    var tokens := ["/" + name] + args;
    assert NoSpaces(tokens) by {
      forall i | 0 <= i < |tokens| ensures ' ' !in tokens[i] {
        if i > 0 { assert tokens[i] == args[i - 1]; }
      }
    }
    JoinSplit(tokens);
    assert Join(tokens) == "/" + name + Spaced(args);
    NotEvalLine(name, args);
    assert DropPrefix(tokens[0], 1) == name;
    assert tokens[1..] == args;
  }

  /** Empty tokens count as arguments: "/nick  bob" (two spaces) has two. */
  lemma DoubleSpaceIsAnArgument()
    ensures CommandHandler("/nick  bob") == WrongSyntax("nickname", 1, 2)
  {
    assert "nick"[0] != "eval"[0];
    assert Resolve("nick") == "nickname" && Arity["nickname"] == 1;
    TypedCommand("nick", ["", "bob"]);
    assert "/" + "nick" + Spaced(["", "bob"]) == "/nick  bob";
  }

  /** Arity-0 commands ignore whatever follows them: "/q now" quits. */
  lemma ZeroArityIgnoresArguments()
    ensures CommandHandler("/q now") == Call0("quit")
  {
    assert "q"[0] != "eval"[0];
    assert Resolve("q") == "quit" && Arity["quit"] == 0;
    TypedCommand("q", ["now"]);
    assert "/" + "q" + Spaced(["now"]) == "/q now";
  }

  /**
   * Arity -1 is unreachable through the table: for any line that starts
   * with '/', the dispatcher never calls or reports on the `eval` entry.
   */
  lemma {:induction false} EvalEntryUnreachable(msg: string)
    requires msg != [] && msg[0] == '/'
    ensures var d := CommandHandler(msg);
      (d.Call0? || d.CallWith? || d.WrongSyntax?) ==> d.command != "eval"
  {
    if !StartsWith(msg, "/eval") {
      var t := Split(msg)[0];
      AliasTargets();
      FirstTokenIsPrefix(msg);
      if |t| == 5 {
        assert t == msg[..5];
        assert t[0] == '/';
        assert t[1..] != "eval";
      }
      assert DropPrefix(t, 1) != "eval";
    }
  }

  // ------------------------------------------------------------ ChatApp state

  /** What a `sysMsg` call reports (its text comes from the language file). */
  datatype Notice =
    | NotConnected
    | CommandNotFound
    | CommandWrongSyntax(command: string, expected: int, given: nat)

  /** A `messageLog` line: the user's own input, or a "[SYSTEM] " notice. */
  datatype LogEntry = Own(text: string) | System(notice: Notice)

  /** The part of `ChatApp` the history keys and `sendMessage` read and write. */
  datatype App = App(historyLog: seq<string>, historyPos: nat, input: string, messageLog: seq<LogEntry>)

  /**
   * How a history key handler ends: `Refused` is `return False`, `Cleared`
   * is `return True`, `Shown` falls off the end after putting an entry in the
   * input box, and `Raised` is the IndexError that escapes the handler (the
   * cursor has moved already, the input box has not changed).
   */
  datatype Step = Refused | Cleared | Shown | Raised

  datatype KeyResult = KeyResult(step: Step, after: App)

  /** `historyBack`. */
  function Back(a: App): KeyResult {
    if a.historyLog == [] || a.historyPos == 0 then KeyResult(Refused, a)
    else
      var pos := a.historyPos - 1;
      match PyIndex(a.historyLog, |a.historyLog| - 1 - pos)
      case None => KeyResult(Raised, a.(historyPos := pos))
      case Some(line) => KeyResult(Shown, a.(historyPos := pos, input := line))
  }

  /** `historyForward`. */
  function Forward(a: App): KeyResult {
    if a.historyLog == [] then KeyResult(Refused, a)
    else if a.historyPos == |a.historyLog| - 1 then KeyResult(Cleared, a.(input := []))
    else
      var pos := a.historyPos + 1;
      match PyIndex(a.historyLog, |a.historyLog| - 1 - pos)
      case None => KeyResult(Raised, a.(historyPos := pos))
      case Some(line) => KeyResult(Shown, a.(historyPos := pos, input := line))
  }

  /** How `sendMessage` ends. */
  datatype SendOutcome =
    | Ignored                      // empty input: return False
    | Dispatched(dispatch: Dispatch)  // a '/' line went to commandHandler
    | Transmitted(text: string)    // handed to chatClient.send
    | Unsent                       // not connected: sysMsg(notConnected)

  datatype SendResult = SendResult(outcome: SendOutcome, after: App)

  /** The notices `commandHandler` itself logs. */
  function DispatchNotices(d: Dispatch): seq<LogEntry> {
    match d
    case NotFound => [System(CommandNotFound)]
    case WrongSyntax(c, e, g) => [System(CommandWrongSyntax(c, e, g))]
    case _ => []
  }

  /** `sendMessage`, with `connected` standing for `chatClient.isConnected`. */
  function Send(a: App, connected: bool): SendResult {
    var msg := a.input;
    if msg == [] then SendResult(Ignored, a)
    else
      var logged := App(a.historyLog + [msg], |a.historyLog| + 1, [], a.messageLog + [Own(msg)]);
      if msg[0] == '/' then
        var d := CommandHandler(msg);
        SendResult(Dispatched(d), logged.(messageLog := logged.messageLog + DispatchNotices(d)))
      else if connected then SendResult(Transmitted(msg), logged)
      else SendResult(Unsent, logged.(messageLog := logged.messageLog + [System(NotConnected)]))
  }

  class ChatApp {
    var historyLog: seq<string>
    var historyPos: nat
    /** `ChatForm.chatInput.value`. */
    var input: string
    var messageLog: seq<LogEntry>

    function State(): App
      reads this
    {
      App(historyLog, historyPos, input, messageLog)
    }

    constructor ()
      ensures State() == App([], 0, [], [])
    {
      historyLog := [];
      historyPos := 0;
      input := [];
      messageLog := [];
    }

    /** The user editing the input box. */
    method Type(text: string)
      modifies this`input
      ensures input == text
    {
      input := text;
    }

    method HistoryBack() returns (step: Step)
      modifies this`historyPos, this`input
      ensures KeyResult(step, State()) == Back(old(State()))
    {
      if historyLog == [] || historyPos == 0 {
        return Refused;
      }
      historyPos := historyPos - 1;
      match PyIndex(historyLog, |historyLog| - 1 - historyPos)
      case None =>
        step := Raised;
      case Some(line) =>
        input := line;
        step := Shown;
    }

    method HistoryForward() returns (step: Step)
      modifies this`historyPos, this`input
      ensures KeyResult(step, State()) == Forward(old(State()))
    {
      if historyLog == [] {
        return Refused;
      }
      if historyPos == |historyLog| - 1 {
        input := [];
        return Cleared;
      }
      historyPos := historyPos + 1;
      match PyIndex(historyLog, |historyLog| - 1 - historyPos)
      case None =>
        step := Raised;
      case Some(line) =>
        input := line;
        step := Shown;
    }

    method SendMessage(connected: bool) returns (outcome: SendOutcome)
      modifies this`historyLog, this`historyPos, this`input, this`messageLog
      ensures SendResult(outcome, State()) == Send(old(State()), connected)
    {
      var msg := input;
      if msg == [] {
        return Ignored;
      }
      messageLog := messageLog + [Own(msg)];
      historyLog := historyLog + [msg];
      historyPos := |historyLog|;
      input := [];
      if msg[0] == '/' {
        var d := CommandHandler(msg);
        messageLog := messageLog + DispatchNotices(d);
        outcome := Dispatched(d);
      } else if connected {
        outcome := Transmitted(msg);
      } else {
        messageLog := messageLog + [System(NotConnected)];
        outcome := Unsent;
      }
    }
  }

  // ------------------------------------------------------------ properties

  /**
   * `historyBack` refuses exactly on an empty history or a cursor at 0 and
   * then changes nothing; otherwise it moves the cursor down by one and shows
   * entry len - pos (Python wraps indices between -len and -1, so a cursor
   * above len shows entry 2*len - pos) or raises once the cursor is above 2*len.
   */
  lemma BackSpec(a: App)
    ensures var r := Back(a); var n := |a.historyLog|; var p := a.historyPos;
      && r.after.historyLog == a.historyLog && r.after.messageLog == a.messageLog
      && (r.step == Refused <==> n == 0 || p == 0)
      && (r.step == Refused ==> r.after == a)
      && (r.step != Refused ==> r.after.historyPos == p - 1)
      && (r.step == Raised <==> n > 0 && p > 2 * n)
      && (r.step == Raised ==> r.after.input == a.input)
      && (r.step == Shown <==> n > 0 && 0 < p <= 2 * n)
      && (r.step == Shown && p <= n ==> r.after.input == a.historyLog[n - p])
      && (r.step == Shown && p > n ==> r.after.input == a.historyLog[2 * n - p])
  {
  }

  /**
   * `historyForward` refuses exactly on an empty history; with the cursor at
   * len - 1 it clears the input and keeps the cursor; otherwise it moves the
   * cursor up by one and shows entry len - 2 - pos (wrapped when negative)
   * or raises once the cursor is above 2*len - 2.
   */
  lemma ForwardSpec(a: App)
    ensures var r := Forward(a); var n := |a.historyLog|; var p := a.historyPos;
      && r.after.historyLog == a.historyLog && r.after.messageLog == a.messageLog
      && (r.step == Refused <==> n == 0)
      && (r.step == Refused ==> r.after == a)
      && (r.step == Cleared <==> n > 0 && p == n - 1)
      && (r.step == Cleared ==> r.after == a.(input := []))
      && (r.step == Raised || r.step == Shown ==> r.after.historyPos == p + 1)
      && (r.step == Raised <==> n > 0 && p != n - 1 && p > 2 * n - 2)
      && (r.step == Raised ==> r.after.input == a.input)
      && (r.step == Shown && p < n - 1 ==> r.after.input == a.historyLog[n - 2 - p])
      && (r.step == Shown && p >= n ==> r.after.input == a.historyLog[2 * n - 2 - p])
  {
  }

  /** Inside the history, a back key is undone by a forward key. */
  lemma BackThenForward(a: App)
    requires 1 <= a.historyPos < |a.historyLog|
    ensures var n := |a.historyLog|;
      Forward(Back(a).after) == KeyResult(Shown, a.(input := a.historyLog[n - 1 - a.historyPos]))
  {
  }

  /** Inside the history, a forward key is undone by a back key. */
  lemma ForwardThenBack(a: App)
    requires a.historyPos < |a.historyLog| - 1
    ensures var n := |a.historyLog|;
      Back(Forward(a).after) == KeyResult(Shown, a.(input := a.historyLog[n - 1 - a.historyPos]))
  {
  }

  /**
   * `sendMessage` ignores an empty input; otherwise it records the text at
   * the end of `historyLog` and `messageLog`, parks the cursor at
   * len(historyLog), empties the input box, and then either hands a '/' line
   * to `commandHandler`, sends the text, or logs that there is no connection.
   */
  lemma SendSpec(a: App, connected: bool)
    ensures var r := Send(a, connected); var b := r.after; var msg := a.input;
      && (msg == [] <==> r.outcome == Ignored)
      && (msg == [] ==> b == a)
      && (msg != [] ==>
            && b.historyLog == a.historyLog + [msg]
            && b.historyPos == |b.historyLog|
            && b.input == []
            && |a.messageLog| + 1 <= |b.messageLog| <= |a.messageLog| + 2
            && b.messageLog[..|a.messageLog| + 1] == a.messageLog + [Own(msg)])
      && (msg != [] && msg[0] == '/' ==> r.outcome == Dispatched(CommandHandler(msg)))
      && (msg != [] && msg[0] != '/' && connected ==> r.outcome == Transmitted(msg) && |b.messageLog| == |a.messageLog| + 1)
      && (msg != [] && msg[0] != '/' && !connected ==> r.outcome == Unsent && b.messageLog[|b.messageLog| - 1] == System(NotConnected))
  {
    var b := Send(a, connected).after;
    if a.input != [] {
      assert b.messageLog[..|a.messageLog| + 1] == a.messageLog + [Own(a.input)];
    }
  }

  /**
   * Because `sendMessage` parks the cursor at len(historyLog), the first back
   * key after a send shows the OLDEST entry of the history, not the one just sent.
   */
  lemma {:induction false} BackAfterSendShowsOldest(a: App, connected: bool)
    requires a.input != []
    ensures var b := Send(a, connected).after;
      && Back(b).step == Shown
      && Back(b).after.input == b.historyLog[0]
      && b.historyLog[0] == (if a.historyLog == [] then a.input else a.historyLog[0])
  {
    SendSpec(a, connected);
  }

  /**
   * With a single entry in the history the cursor sits at 1 after the send,
   * and a forward key then indexes the list at -2, which raises IndexError.
   */
  lemma {:induction false} ForwardAfterFirstSendRaises(a: App, connected: bool)
    requires a.historyLog == [] && a.input != []
    ensures Forward(Send(a, connected).after).step == Raised
  {
    SendSpec(a, connected);
  }
}
