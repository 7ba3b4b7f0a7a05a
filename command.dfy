/**
 * How `_run_rembg` turns its arguments into a process invocation: the interpreter
 * path it resolves, the argument list it builds, and the messages of the errors it
 * raises. The existence check and the process itself are inputs (see the Pipeline
 * module).
 */
module Command {
  import opened Wrappers

  /** The rembg models, indexed by the "sel-model" argument. */
  const Models: seq<string> := [
    "u2net", "u2net_human_seg", "u2net_cloth_seg", "u2netp",
    "silueta", "isnet-general-use", "isnet-anime", "sam"
  ]

  /** The interpreter used when the configured path is empty. */
  const FallbackInterpreter := "python3"

  // ---- str(int(n)) ----------------------------------------------------------

  predicate IsDigit(c: char) {
    '0' <= c <= '9'
  }

  predicate AllDigits(s: string) {
    forall i :: 0 <= i < |s| ==> IsDigit(s[i])
  }

  function DigitChar(d: nat): (c: char)
    requires d < 10
    ensures IsDigit(c) && c as int - '0' as int == d
  {
    ('0' as int + d) as char
  }

  /** The decimal digits of `n`, most significant first, as Python's `str` writes them. */
  function NatToDecimal(n: nat): (s: string)
    ensures |s| >= 1 && AllDigits(s)
    ensures s[0] == '0' ==> n == 0
    decreases n
  {
    if n < 10 then [DigitChar(n)] else NatToDecimal(n / 10) + [DigitChar(n % 10)]
  }

  /** `str(n)` for an int: a '-' before the digits of a negative number. */
  function IntToDecimal(n: int): (s: string)
    ensures |s| >= 1 && (s[0] == '-' <==> n < 0)
  {
    if n < 0 then "-" + NatToDecimal(-n) else NatToDecimal(n)
  }

  /** The number a string of digits denotes. */
  function DecimalValue(s: string): nat
    requires AllDigits(s)
  {
    if s == [] then 0
    else
      var d: int := s[|s| - 1] as int - '0' as int;
      assert IsDigit(s[|s| - 1]);
      10 * DecimalValue(s[..|s| - 1]) + d
  }

  /** Reads back what IntToDecimal writes: an optional '-' and at least one digit. */
  function ParseDecimal(s: string): Option<int> {
    if |s| >= 2 && s[0] == '-' && AllDigits(s[1..]) then Some(-(DecimalValue(s[1..]) as int))
    else if |s| >= 1 && AllDigits(s) then Some(DecimalValue(s))
    else None
  }

  lemma {:induction false} NatDecimalRoundTrip(n: nat)
    ensures DecimalValue(NatToDecimal(n)) == n
    decreases n
  {
    if n >= 10 {
      var s := NatToDecimal(n);
      assert s[..|s| - 1] == NatToDecimal(n / 10);
      NatDecimalRoundTrip(n / 10);
    }
  }

  /** Parsing the erode value back from the argument list gives the number itself. */
  lemma DecimalRoundTrip(n: int)
    ensures ParseDecimal(IntToDecimal(n)) == Some(n)
  {
    if n < 0 {
      var t := NatToDecimal(-n);
      var s := "-" + t;
      assert s == IntToDecimal(n);
      assert s[0] == '-' && s[1..] == t;
      NatDecimalRoundTrip(-n);
      assert ParseDecimal(s) == Some(-(DecimalValue(t) as int));
    } else {
      var s := NatToDecimal(n);
      assert IsDigit(s[0]);
      NatDecimalRoundTrip(n);
      assert ParseDecimal(s) == Some(DecimalValue(s));
    }
  }

  // ---- os.path.expanduser ---------------------------------------------------

  /** The position of the first '/' at or after `i`, or `|path|` when there is none. */
  function SlashFrom(path: string, i: nat): (j: nat)
    requires i <= |path|
    ensures i <= j <= |path|
    ensures j < |path| ==> path[j] == '/'
    ensures forall k :: i <= k < j ==> path[k] != '/'
    decreases |path| - i
  {
    if i == |path| || path[i] == '/' then i else SlashFrom(path, i + 1)
  }

  /** `s.rstrip("/")` */
  function StripTrailingSlashes(s: string): (r: string)
    ensures |r| <= |s| && r == s[..|r|]
    ensures forall k :: |r| <= k < |s| ==> s[k] == '/'
    ensures r == [] || r[|r| - 1] != '/'
  {
    if s != [] && s[|s| - 1] == '/' then StripTrailingSlashes(s[..|s| - 1]) else s
  }

  /**
   * POSIX `os.path.expanduser`: "~" and "~/..." use `home` (the HOME variable), "~name/..."
   * uses the password database `users`, and an unknown name or a path without a leading
   * '~' is returned unchanged.
   */
  function ExpandUser(path: string, home: string, users: map<string, string>): (r: string)
    ensures (path == [] || path[0] != '~') ==> r == path
  {
    if path == [] || path[0] != '~' then path
    else
      var i := SlashFrom(path, 1);
      var name := path[1..i];
      if i != 1 && name !in users then path
      else
        var userHome := StripTrailingSlashes(if i == 1 then home else users[name]);
        var expanded := userHome + path[i..];
        if expanded == [] then "/" else expanded
  }

  /** "~" followed by nothing or by a '/' becomes the home directory without its trailing '/'. */
  lemma ExpandHome(rest: string, home: string, users: map<string, string>)
    requires rest == [] || rest[0] == '/'
    ensures var expanded := StripTrailingSlashes(home) + rest;
      ExpandUser("~" + rest, home, users) == if expanded == [] then "/" else expanded
  {
    var path := "~" + rest;
    assert path[1..] == rest;
    assert SlashFrom(path, 1) == 1 by {
      if rest != [] { assert path[1] == '/'; }
    }
    assert path[1..] == rest;
  }

  /** `os.path.expanduser(python_exe or "python3")` */
  function ResolveInterpreter(pythonExe: string, home: string, users: map<string, string>): (exe: string)
    ensures pythonExe == "" ==> exe == FallbackInterpreter
    ensures (pythonExe != "" && pythonExe[0] != '~') ==> exe == pythonExe
  {
    ExpandUser(if pythonExe == "" then FallbackInterpreter else pythonExe, home, users)
  }

  // ---- the argument list ------------------------------------------------------

  /**
   * `[exe, "-m", "rembg.cli", "i", "-m", model]`, then `["-a", "-ae", str(ae)]` when alpha
   * matting is on, then the input and output paths.
   */
  function CommandLine(exe: string, model: string, alphaMatting: bool, ae: int,
                       inPath: string, outPath: string): (cmd: seq<string>)
    ensures |cmd| == if alphaMatting then 11 else 8
    ensures cmd[..6] == [exe, "-m", "rembg.cli", "i", "-m", model]
    ensures cmd[|cmd| - 2..] == [inPath, outPath]
    ensures alphaMatting ==> cmd[6..9] == ["-a", "-ae", IntToDecimal(ae)]
  {
    [exe, "-m", "rembg.cli", "i", "-m", model]
      + (if alphaMatting then ["-a", "-ae", IntToDecimal(ae)] else [])
      + [inPath, outPath]
  }

  /** The builder as the source writes it: the same `+=` appends, in the same order. */
  method BuildCommand(exe: string, model: string, alphaMatting: bool, ae: int,
                      inPath: string, outPath: string) returns (cmd: seq<string>)
    ensures cmd == CommandLine(exe, model, alphaMatting, ae, inPath, outPath)
  {
    cmd := [exe, "-m", "rembg.cli", "i", "-m", model];
    if alphaMatting {
      cmd := cmd + ["-a", "-ae", IntToDecimal(ae)];
    }
    cmd := cmd + [inPath, outPath];
  }

  /** What rembg's "i" sub-command reads from an argument list. */
  datatype Invocation = Invocation(interpreter: string, model: string, erode: Option<int>,
                                   input: string, output: string)

  function ParseCommandLine(cmd: seq<string>): Option<Invocation> {
    if |cmd| < 8 || cmd[1..5] != ["-m", "rembg.cli", "i", "-m"] then None
    else if |cmd| == 8 then Some(Invocation(cmd[0], cmd[5], None, cmd[6], cmd[7]))
    else if |cmd| == 11 && cmd[6] == "-a" && cmd[7] == "-ae" && ParseDecimal(cmd[8]).Some? then
      Some(Invocation(cmd[0], cmd[5], ParseDecimal(cmd[8]), cmd[9], cmd[10]))
    else None
  }

  /**
   * The argument list says exactly what was asked: the interpreter, the model, the erode
   * value if and only if alpha matting is on, and the two paths, even when a path or the
   * model looks like a flag.
   */
  lemma CommandLineRoundTrip(exe: string, model: string, alphaMatting: bool, ae: int,
                             inPath: string, outPath: string)
    ensures ParseCommandLine(CommandLine(exe, model, alphaMatting, ae, inPath, outPath))
         == Some(Invocation(exe, model, if alphaMatting then Some(ae) else None, inPath, outPath))
  {
    var cmd := CommandLine(exe, model, alphaMatting, ae, inPath, outPath);
    assert cmd[1..5] == cmd[..6][1..5];
    if alphaMatting {
      DecimalRoundTrip(ae);
      assert cmd[8] == cmd[6..9][2];
    }
  }

  /** The errors `_run_rembg` and `_process_image` raise. */
  datatype Error =
    | InterpreterNotFound(path: string)
    | RembgFailed(stderr: string)
    | OutputNotCreated

  /**
   * The text of the raised RuntimeError. It is never empty: a failed rembg with an
   * empty stderr still reports "rembg failed", and a missing interpreter names its path.
   */
  function Message(e: Error): (m: string)
    ensures m != ""
    ensures e.RembgFailed? && e.stderr != "" ==> m == e.stderr
    ensures e.InterpreterNotFound? ==> |m| >= |e.path| && m[|m| - |e.path|..] == e.path
  {
    match e
    case InterpreterNotFound(p) => "Python executable not found: " + p
    case RembgFailed(err) => if err == "" then "rembg failed" else err
    case OutputNotCreated => "Output PNG was not created by rembg."
  }
}
