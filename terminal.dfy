/** The terminal window's command interpreter: a session holding the transcript,
    the colour theme and the processing flag, driven by Enter key presses, each
    of which echoes the command at once and resolves it in a delayed callback. */
module Terminal {
  import opened Text
  import opened Wrappers

  datatype Theme = Matrix | Cyber | Hacker

  /** The name a theme goes by in the `theme` command and its confirmation. */
  function ThemeName(t: Theme): string {
    match t
    case Matrix => "matrix"
    case Cyber => "cyber"
    case Hacker => "hacker"
  }

  /** The command that selects a theme: "theme", a space and the theme's name. */
  function ThemeCommand(t: Theme): (command: string)
    ensures command == "theme " + ThemeName(t)
  {
    match t
    case Matrix => "theme matrix"
    case Cyber => "theme cyber"
    case Hacker => "theme hacker"
  }

  /** The prompt that precedes every echoed command; only the matrix prompt
      ends in a dollar sign, the other two end in a hash. */
  function Prompt(t: Theme): (p: string)
    ensures |p| > 0 && (p[|p| - 1] == '$' <==> t == Matrix)
    ensures p[|p| - 1] == '$' || p[|p| - 1] == '#'
  {
    match t
    case Matrix => "matrix@terminal:~$"
    case Cyber => "cyber@net:/#"
    case Hacker => "root@system:~#"
  }

  /** No two themes share a prompt, so the echo shows which theme was in force. */
  lemma PromptsDistinct(a: Theme, b: Theme)
    ensures Prompt(a) == Prompt(b) <==> a == b
  {
  }

  const InitialHistory: seq<string> := [
    "Initializing Matrix connection...",
    "Connection established.",
    "Type \"help\" for available commands."
  ]

  const InvalidThemeLine: string := "Invalid theme. Available themes: matrix, cyber, hacker"

  /** The closed command table, plus its two fallback branches. */
  datatype Command =
    | Help
    | Clear
    | Status
    | MatrixQuote
    | SetTheme(theme: Theme)
    | Scan
    | Decrypt
    | Exit
    | InvalidTheme
    | Unrecognised(command: string)

  /** The lower-case spelling under which the table lists a command; the two
      fallback branches have none. */
  function Keyword(c: Command): Option<string> {
    match c
    case Help => Some("help")
    case Clear => Some("clear")
    case Status => Some("status")
    case MatrixQuote => Some("matrix")
    case SetTheme(t) => Some(ThemeCommand(t))
    case Scan => Some("scan")
    case Decrypt => Some("decrypt")
    case Exit => Some("exit")
    case InvalidTheme => None
    case Unrecognised(_) => None
  }

  /** `lower` is no entry of the table. */
  ghost predicate NoKeyword(lower: string) {
    forall k: Command :: Keyword(k) != Some(lower)
  }

  /** Two table entries never share a spelling. */
  lemma KeywordInjective(a: Command, b: Command)
    requires Keyword(a).Some? && Keyword(a) == Keyword(b)
    ensures a == b
  {
  }

  /** The switch on the lower-cased command `lower`, falling back on a prefix
      test; `command` is the text as typed. */
  function Dispatch(lower: string, command: string): (c: Command)
    ensures Keyword(c).Some? ==> Keyword(c) == Some(lower)
    ensures c == InvalidTheme ==> StartsWith(lower, "theme")
    ensures c.Unrecognised? ==> c.command == command && !StartsWith(lower, "theme")
  {
    if lower == "help" then Help
    else if lower == "clear" then Clear
    else if lower == "status" then Status
    else if lower == "matrix" then MatrixQuote
    else if lower == "theme matrix" then SetTheme(Matrix)
    else if lower == "theme cyber" then SetTheme(Cyber)
    else if lower == "theme hacker" then SetTheme(Hacker)
    else if lower == "scan" then Scan
    else if lower == "decrypt" then Decrypt
    else if lower == "exit" then Exit
    else if StartsWith(lower, "theme") then InvalidTheme
    else Unrecognised(command)
  }

  /** `switch (command.toLowerCase())`. */
  function Parse(command: string): (c: Command)
    ensures Keyword(c).Some? ==> Keyword(c) == Some(ToLower(command))
    ensures c.Unrecognised? ==> c.command == command
  {
    Dispatch(ToLower(command), command)
  }

  /** A table entry is chosen exactly when the whole of `lower` spells it;
      anything else is an invalid theme when it starts with "theme", and
      unrecognised, keeping the command as typed, when not. */
  lemma DispatchSound(lower: string, command: string)
    ensures Keyword(Dispatch(lower, command)).Some? <==> !NoKeyword(lower)
    ensures forall k: Command | Keyword(k) == Some(lower) :: Dispatch(lower, command) == k
    ensures Dispatch(lower, command) == InvalidTheme <==> NoKeyword(lower) && StartsWith(lower, "theme")
    ensures Dispatch(lower, command).Unrecognised? <==> NoKeyword(lower) && !StartsWith(lower, "theme")
    ensures Dispatch(lower, command).Unrecognised? ==> Dispatch(lower, command).command == command
  {
    var c := Dispatch(lower, command);
    if Keyword(c).Some? {
      forall k: Command | Keyword(k) == Some(lower) ensures k == c {
        KeywordInjective(k, c);
      }
    } else {
      forall k: Command ensures Keyword(k) != Some(lower) {
        if k.SetTheme? {
          assert k.theme == Matrix || k.theme == Cyber || k.theme == Hacker;
        }
      }
    }
  }

  /** The interpreter's reading of a command, whatever the case it is typed in:
      a table entry exactly when the lower-cased command spells it, otherwise
      one of the two fallback branches. */
  lemma ParseSound(command: string)
    ensures Keyword(Parse(command)).Some? ==> Keyword(Parse(command)) == Some(ToLower(command))
    ensures Parse(command) == InvalidTheme <==>
      NoKeyword(ToLower(command)) && StartsWith(ToLower(command), "theme")
    ensures Parse(command).Unrecognised? <==>
      NoKeyword(ToLower(command)) && !StartsWith(ToLower(command), "theme")
    ensures Parse(command).Unrecognised? ==> Parse(command).command == command
  {
    DispatchSound(ToLower(command), command);
    var c := Parse(command);
    if Keyword(c).Some? {
      assert !NoKeyword(ToLower(command));
      var k: Command :| Keyword(k) == Some(ToLower(command));
      assert c == k;
    }
  }

  /** A table entry is found whatever the case it is typed in. */
  lemma ParseEntry(command: string, k: Command)
    requires Keyword(k) == Some(ToLower(command))
    ensures Parse(command) == k
  {
    DispatchSound(ToLower(command), command);
  }

  /** The fixed replies of the table commands. */
  const HelpLines: seq<string> := [
    "Available commands:",
    "- help: Display this help message",
    "- clear: Clear the terminal",
    "- status: Check system status",
    "- matrix: Display Matrix information",
    "- theme [matrix|cyber|hacker]: Change terminal theme",
    "- scan: Scan for nearby systems",
    "- decrypt: Attempt to decrypt current session",
    "- exit: Exit the terminal"
  ]

  const StatusLines: seq<string> := [
    "System Status: Online",
    "Connection: Secure",
    "Signal Strength: Optimal",
    "Trace Program: Not Detected",
    "Encryption: AES-256",
    "Proxy Chains: 7 active nodes",
    "VPN Tunnel: Established"
  ]

  const MatrixLines: seq<string> := [
    "The Matrix is a system, Neo. That system is our enemy.",
    "When you're inside, you look around, what do you see?",
    "Businessmen, teachers, lawyers, carpenters.",
    "The very minds of the people we are trying to save."
  ]

  const ScanLines: seq<string> := [
    "Scanning network...",
    "Found 3 systems:",
    "- Mainframe (192.168.1.1) - Secured",
    "- Sentinel (192.168.1.2) - Vulnerable",
    "- Oracle (192.168.1.3) - Unknown"
  ]

  const DecryptLines: seq<string> := [
    "Attempting decryption...",
    "Progress: ██████████ 100%",
    "Decryption successful",
    "Access granted to level 2 systems"
  ]

  const ExitLines: seq<string> := ["Exiting terminal...", "Connection closed."]

  /** The lines a command appends; only `clear` appends none (it empties the
      transcript instead). */
  function Reply(c: Command): (lines: seq<string>)
    ensures lines == [] <==> c == Clear
    ensures c == Help ==> |lines| == 9
    ensures c == Status ==> |lines| == 7
    ensures c == MatrixQuote ==> |lines| == 4
    ensures c == Scan ==> |lines| == 5
    ensures c == Decrypt ==> |lines| == 4
    ensures c == Exit ==> |lines| == 2
    ensures c.SetTheme? || c == InvalidTheme || c.Unrecognised? ==> |lines| == 1
  {
    match c
    case Help => HelpLines
    case Clear => []
    case Status => StatusLines
    case MatrixQuote => MatrixLines
    case SetTheme(t) => ["Terminal theme changed to: " + ThemeName(t)]
    case Scan => ScanLines
    case Decrypt => DecryptLines
    case Exit => ExitLines
    case InvalidTheme => [InvalidThemeLine]
    case Unrecognised(command) => ["Command not recognized: " + command]
  }

  /** What the user sees of a session: its transcript and its theme. */
  datatype Screen = Screen(history: seq<string>, theme: Theme)

  /** The echo phase: one line, the prompt of the theme in force, a space and
      the command, after the whole prior transcript. */
  function Echo(s: Screen, command: string): (s': Screen)
    ensures s'.theme == s.theme
    ensures |s'.history| == |s.history| + 1 && s'.history[..|s.history|] == s.history
    ensures s'.history[|s.history|] == Prompt(s.theme) + " " + command
  {
    Screen(s.history + [Prompt(s.theme) + " " + command], s.theme)
  }

  /** The resolve phase: `clear` empties the transcript, every other command
      appends its reply, and only a theme command changes the theme. */
  function Resolve(s: Screen, command: string): (s': Screen)
    ensures s'.theme != s.theme ==> Parse(command).SetTheme? && s'.theme == Parse(command).theme
    ensures Parse(command) == Clear ==> s'.history == []
    ensures Parse(command) != Clear ==>
      |s'.history| > |s.history| && s'.history[..|s.history|] == s.history
  {
    var c := Parse(command);
    if c == Clear then Screen([], s.theme)
    else Screen(s.history + Reply(c), if c.SetTheme? then c.theme else s.theme)
  }

  /** Only "clear", in any case, leaves an empty transcript; every other
      command keeps the prior transcript as a proper prefix. */
  lemma ResolveKeepsHistory(s: Screen, command: string)
    ensures Resolve(s, command).history == [] <==> ToLower(command) == "clear"
    ensures ToLower(command) != "clear" ==>
      |Resolve(s, command).history| > |s.history| &&
      Resolve(s, command).history[..|s.history|] == s.history
  {
    var s' := Resolve(s, command);
    if ToLower(command) == "clear" {
      ParseEntry(command, Clear);
    } else {
      ParseSound(command);
      assert Parse(command) != Clear;
      assert s'.history[..|s.history|] == s.history;
    }
  }

  /** A table entry, typed in any case, appends exactly its reply; a theme entry
      also sets its theme, which no other command changes. */
  lemma ResolveEntry(s: Screen, command: string)
    ensures forall k: Command | Keyword(k) == Some(ToLower(command)) && k != Clear ::
      Resolve(s, command).history == s.history + Reply(k)
    ensures forall t: Theme | ToLower(command) == ThemeCommand(t) ::
      Resolve(s, command) == Screen(s.history + ["Terminal theme changed to: " + ThemeName(t)], t)
    ensures Resolve(s, command).theme != s.theme ==>
      ToLower(command) == ThemeCommand(Resolve(s, command).theme)
  {
    forall k: Command | Keyword(k) == Some(ToLower(command)) && k != Clear
      ensures Resolve(s, command).history == s.history + Reply(k)
    {
      ParseEntry(command, k);
    }
    forall t: Theme | ToLower(command) == ThemeCommand(t)
      ensures Resolve(s, command) == Screen(s.history + ["Terminal theme changed to: " + ThemeName(t)], t)
    {
      ParseEntry(command, SetTheme(t));
    }
    ParseSound(command);
  }

  /** Text that is no table entry appends one line and keeps the theme: the
      invalid-theme line when it starts with "theme", otherwise the
      not-recognised line quoting the command as typed. */
  lemma ResolveFallback(s: Screen, command: string)
    requires NoKeyword(ToLower(command))
    ensures StartsWith(ToLower(command), "theme") ==>
      Resolve(s, command) == Screen(s.history + [InvalidThemeLine], s.theme)
    ensures !StartsWith(ToLower(command), "theme") ==>
      Resolve(s, command) == Screen(s.history + ["Command not recognized: " + command], s.theme)
  {
    ParseSound(command);
  }

  /** The echo of a command carries the prompt of the theme in force before it
      runs, and survives its resolution unless the command is "clear". */
  lemma EchoUsesThemeBeforeCommand(s: Screen, command: string)
    requires ToLower(command) != "clear"
    ensures Resolve(Echo(s, command), command).history[|s.history|] == Prompt(s.theme) + " " + command
  {
    var e := Echo(s, command);
    var r := Resolve(e, command);
    ResolveKeepsHistory(e, command);
    assert r.history[..|e.history|] == e.history;
    assert r.history[|s.history|] == r.history[..|e.history|][|s.history|];
  }

  /** After "theme <name>" the next command is echoed with that theme's prompt. */
  lemma NextPromptFollowsTheme(s: Screen, first: string, second: string, t: Theme)
    requires ToLower(first) == ThemeCommand(t)
    ensures
      var after := Resolve(Echo(s, first), first);
      Echo(after, second).history[|after.history|] == Prompt(t) + " " + second
  {
    ResolveEntry(Echo(s, first), first);
  }

  /** One open terminal. `pending` is the command captured by the delayed
      callback that is still to run. */
  class Session {
    var input: string
    var history: seq<string>
    var theme: Theme
    var isProcessing: bool
    var pending: Option<string>

    ghost predicate Valid()
      reads this
    {
      isProcessing <==> pending.Some?
    }

    function View(): Screen
      reads this
    {
      Screen(history, theme)
    }

    constructor ()
      ensures Valid()
      ensures input == "" && history == InitialHistory && theme == Matrix && !isProcessing
    {
      input := "";
      history := InitialHistory;
      theme := Matrix;
      isProcessing := false;
      pending := None;
    }

    /** handleInputChange: the field's new value. */
    method ChangeInput(value: string)
      modifies this`input
      ensures input == value
    {
      input := value;
    }

    /** handleKeyDown. The input field exists only while no command is being
        processed, so key presses reach a session that is not processing. Enter
        with some non-white-space input processes the trimmed input and empties
        the field; anything else changes nothing. */
    method KeyDown(key: string)
      requires Valid() && !isProcessing
      modifies this
      ensures Valid()
      ensures if key == "Enter" && Trim(old(input)) != "" then
          View() == Echo(old(View()), Trim(old(input))) &&
          isProcessing && pending == Some(Trim(old(input))) && input == ""
        else
          View() == old(View()) && !isProcessing && input == old(input)
    {
      if key == "Enter" && Trim(input) != "" {
        ProcessCommand(Trim(input));
        input := "";
      }
    }

    /** The echo phase of processCommand: echo with the current prompt, turn
        processing on and schedule the resolution of `command`. */
    method ProcessCommand(command: string)
      requires Valid() && !isProcessing
      modifies this`history, this`isProcessing, this`pending
      ensures Valid()
      ensures View() == Echo(old(View()), command)
      ensures isProcessing && pending == Some(command)
    {
      history := history + [Prompt(theme) + " " + command];
      isProcessing := true;
      pending := Some(command);
    }

    /** The delayed callback of processCommand: dispatch on the lower-cased
        command, then turn processing off. */
    method ResolvePending()
      requires Valid() && isProcessing
      modifies this`history, this`theme, this`isProcessing, this`pending
      ensures Valid() && !isProcessing
      ensures View() == Resolve(old(View()), old(pending).value)
    {
      var command := pending.value;
      var c := Parse(command);
      if c == Clear {
        history := [];
      } else {
        history := history + Reply(c);
        if c.SetTheme? {
          theme := c.theme;
        }
      }
      isProcessing := false;
      pending := None;
    }
  }
}
