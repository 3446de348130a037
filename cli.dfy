/**
 * The command-line client's argument handling: the scan that pulls the global `--daemon-url` and
 * `--help` options out of the arguments, the pairwise scan of the `register` options, and the
 * choice of what to do. The HTTP requests themselves are not modelled: the client's decision is
 * an `Action` naming the request it would make.
 */
module Cli {
  import opened Wrappers
  import opened Decimal

  const DefaultDaemonUrl: string := "http://localhost:8080"
  const UrlFlag: string := "--daemon-url"
  const UrlAssignPrefix: string := "--daemon-url="
  const HelpFlag: string := "--help"

  predicate HasPrefix(s: string, p: string) {
    |p| <= |s| && s[..|p|] == p
  }

  // ---------------------------------------------------------------------------------------------
  // Global options
  // ---------------------------------------------------------------------------------------------

  /** How the global scan reads the arguments: one token per step of its loop. */
  datatype Token =
    | UrlAssign(value: string)  // `--daemon-url=V`
    | UrlPair(value: string)    // `--daemon-url V`, the next argument taken verbatim
    | Help                      // a standalone `--help`
    | Plain(arg: string)        // anything else, kept for the command

  /** The tokens of an argument list. A `--daemon-url` with nothing after it is an ordinary
      argument. */
  function Lex(args: seq<string>): seq<Token>
    decreases |args|
  {
    if args == [] then []
    else if HasPrefix(args[0], UrlAssignPrefix) then [UrlAssign(args[0][|UrlAssignPrefix|..])] + Lex(args[1..])
    else if args[0] == UrlFlag && |args| > 1 then [UrlPair(args[1])] + Lex(args[2..])
    else if args[0] == HelpFlag then [Help] + Lex(args[1..])
    else [Plain(args[0])] + Lex(args[1..])
  }

  /** The arguments a token was read from. */
  function Spell(t: Token): seq<string> {
    match t
    case UrlAssign(v) => [UrlAssignPrefix + v]
    case UrlPair(v) => [UrlFlag, v]
    case Help => [HelpFlag]
    case Plain(a) => [a]
  }

  function Unlex(ts: seq<Token>): seq<string> {
    if ts == [] then [] else Unlex(ts[..|ts| - 1]) + Spell(ts[|ts| - 1])
  }

  predicate IsUrl(t: Token) { t.UrlAssign? || t.UrlPair? }

  /** The URL of the last URL option among `ts`, or `default` when there is none. */
  function LastUrl(ts: seq<Token>, default: string): string {
    if ts == [] then default
    else
      var t := ts[|ts| - 1];
      if IsUrl(t) then t.value else LastUrl(ts[..|ts| - 1], default)
  }

  /** The arguments of the `Plain` tokens, in order. */
  function Kept(ts: seq<Token>): seq<string> {
    if ts == [] then []
    else Kept(ts[..|ts| - 1]) + (if ts[|ts| - 1].Plain? then [ts[|ts| - 1].arg] else [])
  }

  datatype GlobalParse = Parsed(daemonUrl: string, filtered: seq<string>) | HelpRequested

  /** What the global scan means: a `--help` token anywhere stops with the usage text; otherwise
      the last URL option wins and the other arguments are kept. */
  function Interpret(ts: seq<Token>): GlobalParse {
    if Help in ts then HelpRequested else Parsed(LastUrl(ts, DefaultDaemonUrl), Kept(ts))
  }

  lemma {:induction false} UnlexPrepend(t: Token, ts: seq<Token>)
    ensures Unlex([t] + ts) == Spell(t) + Unlex(ts)
    decreases |ts|
  {
    if ts != [] {
      var init := ts[..|ts| - 1];
      UnlexPrepend(t, init);
      assert ([t] + ts)[..|ts|] == [t] + init;
    }
  }

  /** Reading the tokens back reproduces the arguments exactly: the scan drops or rewrites
      nothing, it only groups. */
  lemma {:induction false} UnlexLex(args: seq<string>)
    ensures Unlex(Lex(args)) == args
    decreases |args|
  {
    if args != [] {
      var ts := Lex(args);
      if HasPrefix(args[0], UrlAssignPrefix) {
        UnlexLex(args[1..]);
        UnlexPrepend(ts[0], Lex(args[1..]));
        assert UrlAssignPrefix + args[0][|UrlAssignPrefix|..] == args[0];
        assert args == [args[0]] + args[1..];
      } else if args[0] == UrlFlag && |args| > 1 {
        UnlexLex(args[2..]);
        UnlexPrepend(ts[0], Lex(args[2..]));
        assert args == [args[0], args[1]] + args[2..];
      } else {
        UnlexLex(args[1..]);
        UnlexPrepend(ts[0], Lex(args[1..]));
        assert args == [args[0]] + args[1..];
      }
    }
  }

  /** With no URL option the default URL stays. */
  lemma {:induction false} LastUrlDefault(ts: seq<Token>, default: string)
    requires forall k :: 0 <= k < |ts| ==> !IsUrl(ts[k])
    ensures LastUrl(ts, default) == default
    decreases |ts|
  {
    if ts != [] {
      var init := ts[..|ts| - 1];
      assert !IsUrl(ts[|ts| - 1]);
      forall k | 0 <= k < |init| ensures !IsUrl(init[k]) {
        assert init[k] == ts[k];
      }
      LastUrlDefault(init, default);
    }
  }

  /** The last URL option wins: its value is the URL whatever came before it. */
  lemma {:induction false} LastUrlIsLast(ts: seq<Token>, default: string, k: nat)
    requires k < |ts| && IsUrl(ts[k])
    requires forall m :: k < m < |ts| ==> !IsUrl(ts[m])
    ensures LastUrl(ts, default) == ts[k].value
    decreases |ts|
  {
    if k < |ts| - 1 {
      var init := ts[..|ts| - 1];
      assert !IsUrl(ts[|ts| - 1]);
      assert init[k] == ts[k];
      forall m | k < m < |init| ensures !IsUrl(init[m]) {
        assert init[m] == ts[m];
      }
      LastUrlIsLast(init, default, k);
    }
  }

  // Keeping arguments is deleting some of them: `Select` keeps the positions a mask marks.

  function Select(s: seq<string>, mask: seq<bool>): seq<string>
    requires |mask| == |s|
  {
    if s == [] then []
    else Select(s[..|s| - 1], mask[..|s| - 1]) + (if mask[|s| - 1] then [s[|s| - 1]] else [])
  }

  ghost predicate IsSubsequence(sub: seq<string>, s: seq<string>) {
    exists mask :: |mask| == |s| && Select(s, mask) == sub
  }

  lemma {:induction false} SelectAppend(a: seq<string>, ma: seq<bool>, b: seq<string>, mb: seq<bool>)
    requires |ma| == |a| && |mb| == |b|
    ensures Select(a + b, ma + mb) == Select(a, ma) + Select(b, mb)
    decreases |b|
  {
    if b != [] {
      var n := |b| - 1;
      SelectAppend(a, ma, b[..n], mb[..n]);
      var ab, m := a + b, ma + mb;
      assert ab[..|ab| - 1] == a + b[..n];
      assert m[..|ab| - 1] == ma + mb[..n];
      assert ab[|ab| - 1] == b[n] && m[|ab| - 1] == mb[n];
      assert Select(ab, m) == Select(a + b[..n], ma + mb[..n]) + (if mb[n] then [b[n]] else []);
      assert Select(b, mb) == Select(b[..n], mb[..n]) + (if mb[n] then [b[n]] else []);
    } else {
      assert a + b == a && ma + mb == ma;
    }
  }

  /** Which arguments of a token are kept. */
  function KeepMask(ts: seq<Token>): (m: seq<bool>)
    ensures |m| == |Unlex(ts)|
  {
    if ts == [] then []
    else
      var t := ts[|ts| - 1];
      KeepMask(ts[..|ts| - 1]) + match t
        case UrlAssign(_) => [false]
        case UrlPair(_) => [false, false]
        case Help => [false]
        case Plain(_) => [true]
  }

  lemma {:induction false} KeptIsSelected(ts: seq<Token>)
    ensures Select(Unlex(ts), KeepMask(ts)) == Kept(ts)
    decreases |ts|
  {
    if ts != [] {
      var init, t := ts[..|ts| - 1], ts[|ts| - 1];
      KeptIsSelected(init);
      var tail := KeepMask(ts)[|KeepMask(init)|..];
      assert KeepMask(ts) == KeepMask(init) + tail;
      SelectAppend(Unlex(init), KeepMask(init), Spell(t), tail);
      if t.UrlPair? {
        assert tail == [false, false];
        assert Spell(t)[..1] == [UrlFlag];
        assert Select(Spell(t)[..1], tail[..1]) == [];
      }
    }
  }

  /** The arguments handed to the command are the original ones with some deleted, in their
      original order. */
  lemma FilteredIsSubsequence(args: seq<string>)
    ensures IsSubsequence(Kept(Lex(args)), args)
  {
    UnlexLex(args);
    KeptIsSelected(Lex(args));
  }

  /** The global-option loop of `main`, over the arguments after the command word. */
  method ParseGlobalOptions(args: seq<string>) returns (r: GlobalParse)
    ensures r == Interpret(Lex(args))
  {
    var daemonUrl := DefaultDaemonUrl;
    var filtered: seq<string> := [];
    ghost var seen: seq<Token> := [];
    var i := 0;
    while i < |args|
      invariant 0 <= i <= |args|
      invariant Lex(args) == seen + Lex(args[i..])
      invariant Help !in seen
      invariant daemonUrl == LastUrl(seen, DefaultDaemonUrl)
      invariant filtered == Kept(seen)
      decreases |args| - i
    {
      var arg := args[i];
      GlobalStep(args, i, seen);
      if HasPrefix(arg, UrlAssignPrefix) {
        daemonUrl := arg[|UrlAssignPrefix|..];
        SnocToken(seen, UrlAssign(daemonUrl));
        seen := seen + [UrlAssign(daemonUrl)];
      } else if arg == UrlFlag && i + 1 < |args| {
        daemonUrl := args[i + 1];
        SnocToken(seen, UrlPair(daemonUrl));
        seen := seen + [UrlPair(daemonUrl)];
        i := i + 1;
      } else if arg == HelpFlag {
        return HelpRequested;
      } else {
        filtered := filtered + [arg];
        SnocToken(seen, Plain(arg));
        seen := seen + [Plain(arg)];
      }
      i := i + 1;
    }
    assert args[i..] == [];
    assert Lex(args) == seen;
    r := Parsed(daemonUrl, filtered);
  }

  /** One step of the global scan, read off the tokens of the remaining arguments. */
  lemma GlobalStep(args: seq<string>, i: nat, seen: seq<Token>)
    requires i < |args|
    requires Lex(args) == seen + Lex(args[i..])
    ensures HasPrefix(args[i], UrlAssignPrefix) ==>
      Lex(args) == seen + [UrlAssign(args[i][|UrlAssignPrefix|..])] + Lex(args[i + 1..])
    ensures !HasPrefix(args[i], UrlAssignPrefix) && args[i] == UrlFlag && i + 1 < |args| ==>
      Lex(args) == seen + [UrlPair(args[i + 1])] + Lex(args[i + 2..])
    ensures !HasPrefix(args[i], UrlAssignPrefix) && !(args[i] == UrlFlag && i + 1 < |args|) && args[i] == HelpFlag ==>
      Help in Lex(args)
    ensures !HasPrefix(args[i], UrlAssignPrefix) && !(args[i] == UrlFlag && i + 1 < |args|) && args[i] != HelpFlag ==>
      Lex(args) == seen + [Plain(args[i])] + Lex(args[i + 1..])
  {
    var rest := args[i..];
    assert rest[0] == args[i] && rest[1..] == args[i + 1..];
    if |rest| > 1 {
      assert rest[1] == args[i + 1] && rest[2..] == args[i + 2..];
    }
    if !HasPrefix(args[i], UrlAssignPrefix) && !(args[i] == UrlFlag && i + 1 < |args|) && args[i] == HelpFlag {
      assert Lex(rest)[0] == Help;
      assert Lex(args)[|seen|] == Help;
    }
  }

  /** What one more token does to the scan's state. */
  lemma SnocToken(seen: seq<Token>, t: Token)
    ensures Help in seen + [t] <==> Help in seen || t == Help
    ensures LastUrl(seen + [t], DefaultDaemonUrl) ==
      if IsUrl(t) then t.value else LastUrl(seen, DefaultDaemonUrl)
    ensures Kept(seen + [t]) == Kept(seen) + if t.Plain? then [t.arg] else []
  {
    assert (seen + [t])[..|seen|] == seen;
  }

  // ---------------------------------------------------------------------------------------------
  // Register options
  // ---------------------------------------------------------------------------------------------

  /** `strings.Split(s, string(sep))`: the pieces between separators, `[""]` for the empty
      string. */
  function Split(s: string, sep: char): (r: seq<string>)
    ensures |r| >= 1
    decreases |s|
  {
    if s == [] then [""]
    else
      var rest := Split(s[1..], sep);
      if s[0] == sep then [""] + rest else [[s[0]] + rest[0]] + rest[1..]
  }

  /** `strings.Join(parts, string(sep))`. */
  function Join(parts: seq<string>, sep: char): string
    decreases |parts|
  {
    if parts == [] then ""
    else if |parts| == 1 then parts[0]
    else parts[0] + [sep] + Join(parts[1..], sep)
  }

  /** Joining the pieces gives the text back. */
  lemma {:induction false} JoinSplit(s: string, sep: char)
    ensures Join(Split(s, sep), sep) == s
    decreases |s|
  {
    if s != [] {
      var rest := Split(s[1..], sep);
      JoinSplit(s[1..], sep);
      if s[0] == sep {
        assert ([""] + rest)[1..] == rest;
        assert s == [sep] + s[1..];
      } else {
        var parts := [[s[0]] + rest[0]] + rest[1..];
        assert parts[1..] == rest[1..];
        if |rest| > 1 {
          assert Join(rest, sep) == rest[0] + [sep] + Join(rest[1..], sep);
        }
        assert s == [s[0]] + s[1..];
      }
    }
  }

  /** No piece holds the separator. */
  lemma {:induction false} SplitPiecesClean(s: string, sep: char)
    ensures forall k :: 0 <= k < |Split(s, sep)| ==> sep !in Split(s, sep)[k]
    decreases |s|
  {
    if s != [] {
      SplitPiecesClean(s[1..], sep);
      var rest := Split(s[1..], sep);
      var r := Split(s, sep);
      if s[0] == sep {
        forall k | 0 < k < |r| ensures sep !in r[k] { assert r[k] == rest[k - 1]; }
      } else {
        assert r[0] == [s[0]] + rest[0];
        forall k | 0 < k < |r| ensures sep !in r[k] { assert r[k] == rest[k]; }
      }
    }
  }

  lemma {:induction false} SplitWord(w: string, t: string, sep: char)
    requires sep !in w
    ensures Split(w + [sep] + t, sep) == [w] + Split(t, sep)
    ensures Split(w, sep) == [w]
    decreases |w|
  {
    if w != [] {
      SplitWord(w[1..], t, sep);
      assert (w + [sep] + t)[1..] == w[1..] + [sep] + t;
      assert [w[0]] + w[1..] == w;
    } else {
      assert w + [sep] + t == [sep] + t;
    }
  }

  /** Splitting pieces that hold no separator after joining them gives the pieces back. */
  lemma {:induction false} SplitJoin(parts: seq<string>, sep: char)
    requires |parts| >= 1
    requires forall k :: 0 <= k < |parts| ==> sep !in parts[k]
    ensures Split(Join(parts, sep), sep) == parts
    decreases |parts|
  {
    if |parts| == 1 {
      SplitWord(parts[0], "", sep);
    } else {
      SplitJoin(parts[1..], sep);
      SplitWord(parts[0], Join(parts[1..], sep), sep);
      assert parts == [parts[0]] + parts[1..];
    }
  }

  datatype RegisterOptions = RegisterOptions(name: string, pool: string, tags: seq<string>)

  /** The number of complete (option, value) pairs after the GPU id. */
  function PairCount(filtered: seq<string>): nat {
    if |filtered| == 0 then 0 else (|filtered| - 1) / 2
  }

  /** The value of the last of the first `n` pairs whose option is `key`. Pair `k` (from 0) is
      `filtered[2k+1]`, `filtered[2k+2]`. */
  function LastSet(filtered: seq<string>, n: nat, key: string): Option<string>
    requires n == 0 || 2 * n < |filtered|
  {
    if n == 0 then None
    else if filtered[2 * n - 1] == key then Some(filtered[2 * n])
    else LastSet(filtered, n - 1, key)
  }

  function TagList(v: Option<string>): seq<string> {
    match v
    case None => []
    case Some(text) => Split(text, ',')
  }

  /** The options `register` sends: the last `--name`, `--pool` and `--tags` among the complete
      pairs, with defaults `""`, `"default"` and no tags. */
  function Options(filtered: seq<string>): RegisterOptions {
    var n := PairCount(filtered);
    RegisterOptions(GetOr(LastSet(filtered, n, "--name"), ""), GetOr(LastSet(filtered, n, "--pool"), "default"),
                    TagList(LastSet(filtered, n, "--tags")))
  }

  /** The register-option loop of `main`. */
  method ParseRegisterOptions(filtered: seq<string>) returns (o: RegisterOptions)
    ensures o == Options(filtered)
  {
    var name, pool, tags := "", "default", [];
    var i := 1;
    ghost var k := 0;
    while i < |filtered|
      invariant i == 2 * k + 1
      invariant k == 0 || i <= |filtered|
      invariant name == GetOr(LastSet(filtered, k, "--name"), "")
      invariant pool == GetOr(LastSet(filtered, k, "--pool"), "default")
      invariant tags == TagList(LastSet(filtered, k, "--tags"))
      decreases |filtered| - i
    {
      if i + 1 >= |filtered| {
        break;
      }
      var arg, value := filtered[i], filtered[i + 1];
      if arg == "--name" {
        name := value;
      } else if arg == "--pool" {
        pool := value;
      } else if arg == "--tags" {
        tags := Split(value, ',');
      }
      i, k := i + 2, k + 1;
    }
    assert |filtered| <= 1 || |filtered| == 2 * k + 1 || |filtered| == 2 * k + 2;
    o := RegisterOptions(name, pool, tags);
  }

  /** A later pair does not disturb the earlier ones. */
  lemma {:induction false} LastSetPrefix(filtered: seq<string>, more: seq<string>, n: nat, key: string)
    requires n == 0 || 2 * n < |filtered|
    ensures LastSet(filtered + more, n, key) == LastSet(filtered, n, key)
    decreases n
  {
    if n > 0 {
      assert (filtered + more)[2 * n - 1] == filtered[2 * n - 1];
      assert (filtered + more)[2 * n] == filtered[2 * n];
      LastSetPrefix(filtered, more, n - 1, key);
    }
  }

  /** The last pair with a given option decides its value; with no such pair the option keeps its
      default. */
  lemma {:induction false} LastSetIsLast(filtered: seq<string>, n: nat, key: string, k: nat)
    requires n == 0 || 2 * n < |filtered|
    requires k < n && filtered[2 * k + 1] == key
    requires forall m :: k < m < n ==> filtered[2 * m + 1] != key
    ensures LastSet(filtered, n, key) == Some(filtered[2 * k + 2])
    decreases n
  {
    if k < n - 1 {
      assert filtered[2 * (n - 1) + 1] != key;
      LastSetIsLast(filtered, n - 1, key, k);
    }
  }

  lemma {:induction false} LastSetAbsent(filtered: seq<string>, n: nat, key: string)
    requires n == 0 || 2 * n < |filtered|
    requires forall m :: 0 <= m < n ==> filtered[2 * m + 1] != key
    ensures LastSet(filtered, n, key) == None
    decreases n
  {
    if n > 0 {
      assert filtered[2 * (n - 1) + 1] != key;
      LastSetAbsent(filtered, n - 1, key);
    }
  }

  /** An option left without a value at the end is ignored. */
  lemma TrailingOptionIgnored(filtered: seq<string>, option: string)
    requires |filtered| % 2 == 1
    ensures Options(filtered + [option]) == Options(filtered)
  {
    var n := PairCount(filtered);
    assert PairCount(filtered + [option]) == n;
    LastSetPrefix(filtered, [option], n, "--name");
    LastSetPrefix(filtered, [option], n, "--pool");
    LastSetPrefix(filtered, [option], n, "--tags");
  }

  /** A pair with an unknown option consumes its value and changes nothing; a pair with a known
      option overrides every earlier one. */
  lemma AppendedPair(filtered: seq<string>, option: string, value: string)
    requires |filtered| % 2 == 1
    ensures option !in ["--name", "--pool", "--tags"] ==> Options(filtered + [option, value]) == Options(filtered)
    ensures option == "--name" ==> Options(filtered + [option, value]).name == value
    ensures option == "--pool" ==> Options(filtered + [option, value]).pool == value
    ensures option == "--tags" ==> Options(filtered + [option, value]).tags == Split(value, ',')
  {
    var n := PairCount(filtered);
    var longer := filtered + [option, value];
    assert PairCount(longer) == n + 1;
    assert longer[2 * (n + 1) - 1] == option && longer[2 * (n + 1)] == value;
    LastSetPrefix(filtered, [option, value], n, "--name");
    LastSetPrefix(filtered, [option, value], n, "--pool");
    LastSetPrefix(filtered, [option, value], n, "--tags");
  }

  // ---------------------------------------------------------------------------------------------
  // What the client does
  // ---------------------------------------------------------------------------------------------

  datatype CliError = GpuIdRequired | InvalidGpuId(text: string)

  /** The outcome of one invocation: the usage text with an exit code, or the request the client
      would send to the daemon at `url`, or a fatal error. */
  datatype Action =
    | Usage(exitCode: int)
    | UnknownCommand(command: string)
    | ListGpus(url: string)
    | GpuStatus(url: string, id: int)
    | RegisterGpu(url: string, id: int, options: RegisterOptions)
    | UnregisterGpu(url: string, id: int)
    | ListHealthChecks(url: string)
    | DaemonHealth(url: string)
    | Fatal(error: CliError)

  /** `NewClient`: an empty URL falls back to the default. */
  function ClientUrl(url: string): (u: string)
    ensures u != []
    ensures url != [] ==> u == url
  {
    if url == "" then DefaultDaemonUrl else url
  }

  /** `cmdStatus`: an empty id lists every GPU, any other id must parse as an int. */
  function StatusAction(url: string, gpuId: string): (a: Action)
    ensures gpuId == "" ==> a == ListGpus(url)
    ensures gpuId != "" && Atoi(gpuId).None? ==> a == Fatal(InvalidGpuId(gpuId))
    ensures gpuId != "" && Atoi(gpuId).Some? ==> a == GpuStatus(url, Atoi(gpuId).value)
  {
    if gpuId != "" then
      match Atoi(gpuId)
      case None => Fatal(InvalidGpuId(gpuId))
      case Some(id) => GpuStatus(url, id)
    else ListGpus(url)
  }

  /** The command switch of `main`, after the global options are gone. */
  function CommandAction(command: string, url: string, filtered: seq<string>): Action {
    if command == "status" then StatusAction(url, if |filtered| > 0 then filtered[0] else "")
    else if command == "register" then
      if |filtered| < 1 then Fatal(GpuIdRequired)
      else
        match Atoi(filtered[0])
        case None => Fatal(InvalidGpuId(filtered[0]))
        case Some(id) => RegisterGpu(url, id, Options(filtered))
    else if command == "unregister" then
      if |filtered| < 1 then Fatal(GpuIdRequired)
      else
        match Atoi(filtered[0])
        case None => Fatal(InvalidGpuId(filtered[0]))
        case Some(id) => UnregisterGpu(url, id)
    else if command == "health-checks" then ListHealthChecks(url)
    else if command == "health" then DaemonHealth(url)
    else UnknownCommand(command)
  }

  /** What `main` does with `os.Args` (the program name first). */
  function Decide(osArgs: seq<string>): Action {
    if |osArgs| < 2 then Usage(1)
    else
      match Interpret(Lex(osArgs[2..]))
      case HelpRequested => Usage(0)
      case Parsed(url, filtered) => CommandAction(osArgs[1], ClientUrl(url), filtered)
  }

  /** `main`, up to the request it sends. */
  method Run(osArgs: seq<string>) returns (a: Action)
    ensures a == Decide(osArgs)
  {
    if |osArgs| < 2 {
      return Usage(1);
    }
    var command := osArgs[1];
    var global := ParseGlobalOptions(osArgs[2..]);
    if global.HelpRequested? {
      return Usage(0);
    }
    var url, filtered := ClientUrl(global.daemonUrl), global.filtered;
    if command == "status" {
      var gpuId := "";
      if |filtered| > 0 {
        gpuId := filtered[0];
      }
      a := StatusAction(url, gpuId);
    } else if command == "register" {
      if |filtered| < 1 {
        return Fatal(GpuIdRequired);
      }
      var options := ParseRegisterOptions(filtered);
      var id := Atoi(filtered[0]);
      a := if id.None? then Fatal(InvalidGpuId(filtered[0])) else RegisterGpu(url, id.value, options);
    } else if command == "unregister" {
      if |filtered| < 1 {
        return Fatal(GpuIdRequired);
      }
      var id := Atoi(filtered[0]);
      a := if id.None? then Fatal(InvalidGpuId(filtered[0])) else UnregisterGpu(url, id.value);
    } else if command == "health-checks" {
      a := ListHealthChecks(url);
    } else if command == "health" {
      a := DaemonHealth(url);
    } else {
      a := UnknownCommand(command);
    }
  }

  /** Both spellings of the URL option start with `--daemon-url`. */
  lemma UrlOptionsMentionFlag(arg: string)
    ensures HasPrefix(arg, UrlAssignPrefix) ==> HasPrefix(arg, UrlFlag)
    ensures arg == UrlFlag ==> HasPrefix(arg, UrlFlag)
  {
    if HasPrefix(arg, UrlAssignPrefix) {
      assert arg[..|UrlFlag|] == arg[..|UrlAssignPrefix|][..|UrlFlag|];
    }
  }

  /** Arguments that never mention `--daemon-url` yield no URL token. */
  lemma {:induction false} NoUrlTokens(args: seq<string>)
    requires forall k :: 0 <= k < |args| ==> !HasPrefix(args[k], UrlFlag)
    ensures forall k :: 0 <= k < |Lex(args)| ==> !IsUrl(Lex(args)[k])
    decreases |args|
  {
    if args != [] {
      UrlOptionsMentionFlag(args[0]);
      forall k | 0 <= k < |args[1..]| ensures !HasPrefix(args[1..][k], UrlFlag) {
        assert args[1..][k] == args[k + 1];
      }
      NoUrlTokens(args[1..]);
      var ts := Lex(args);
      forall k | 0 <= k < |ts| ensures !IsUrl(ts[k]) {
        if k > 0 { assert ts[k] == Lex(args[1..])[k - 1]; }
      }
    }
  }

  /** Too few arguments print the usage and exit 1; a standalone `--help` among the options prints
      it and exits 0, whatever the command. */
  lemma UsageCases(osArgs: seq<string>)
    ensures |osArgs| < 2 ==> Decide(osArgs) == Usage(1)
    ensures |osArgs| >= 2 && Help in Lex(osArgs[2..]) ==> Decide(osArgs) == Usage(0)
  {
  }

  /** `--help` in place of the command is not an option: it is reported as an unknown command. */
  lemma HelpAsCommand(program: string)
    ensures Decide([program, HelpFlag]) == UnknownCommand(HelpFlag)
  {
    assert [program, HelpFlag][2..] == [];
  }

  /** Without `--daemon-url` the client talks to the default daemon URL, and the command sees every
      argument (none can be taken as an option value). */
  lemma DefaultUrlWithoutOption(command: string, args: seq<string>, program: string)
    requires forall k :: 0 <= k < |args| ==> !HasPrefix(args[k], UrlFlag)
    requires HelpFlag !in args
    ensures Interpret(Lex(args)) == Parsed(DefaultDaemonUrl, args)
    ensures Decide([program, command] + args) == CommandAction(command, DefaultDaemonUrl, args)
  {
    NoUrlTokens(args);
    LastUrlDefault(Lex(args), DefaultDaemonUrl);
    NoHelpPlain(args);
    assert ([program, command] + args)[2..] == args;
  }

  /** With neither URL options nor `--help`, every argument is a `Plain` token. */
  lemma {:induction false} NoHelpPlain(args: seq<string>)
    requires forall k :: 0 <= k < |args| ==> !HasPrefix(args[k], UrlFlag)
    requires HelpFlag !in args
    ensures Help !in Lex(args) && Kept(Lex(args)) == args
    decreases |args|
  {
    if args != [] {
      NoUrlTokens(args);
      assert !IsUrl(Lex(args)[0]);
      forall k | 0 <= k < |args[1..]| ensures !HasPrefix(args[1..][k], UrlFlag) {
        assert args[1..][k] == args[k + 1];
      }
      NoHelpPlain(args[1..]);
      var ts := Lex(args);
      assert ts == [Plain(args[0])] + Lex(args[1..]);
      KeptPrepend(args[0], Lex(args[1..]));
      assert args == [args[0]] + args[1..];
    }
  }

  lemma {:induction false} KeptPrepend(a: string, ts: seq<Token>)
    ensures Kept([Plain(a)] + ts) == [a] + Kept(ts)
    decreases |ts|
  {
    if ts != [] {
      KeptPrepend(a, ts[..|ts| - 1]);
      assert ([Plain(a)] + ts)[..|ts|] == [Plain(a)] + ts[..|ts| - 1];
    }
  }

  /** `register` and `unregister` need a GPU id; `status` without one lists all GPUs. */
  lemma CommandCases(url: string, filtered: seq<string>)
    ensures filtered == [] ==> CommandAction("register", url, filtered) == Fatal(GpuIdRequired)
    ensures filtered == [] ==> CommandAction("unregister", url, filtered) == Fatal(GpuIdRequired)
    ensures filtered == [] ==> CommandAction("status", url, filtered) == ListGpus(url)
    ensures |filtered| >= 1 && Atoi(filtered[0]).None? ==>
      CommandAction("register", url, filtered) == Fatal(InvalidGpuId(filtered[0]))
      && CommandAction("unregister", url, filtered) == Fatal(InvalidGpuId(filtered[0]))
  {
  }
}
