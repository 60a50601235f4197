/** The configuration state of icmpnam and the meaning of one configuration
    line: the option table, the three option handlers, the argument
    collector, the option scan of conf_load as written, and the whole load. */
module Conf {
  import opened CStr
  import opened Wrappers
  import opened Strtonum

  const IFNAMSIZ := 16
  /** sizeof(tmp): an argument must be shorter than this. */
  const ARGMAX := 1024
  const DIVERT_PORT := 1805
  const USHRT_MAX := 65535

  /** A struct in_addr. */
  type Addr = x: int | 0 <= x < 0x1_0000_0000
  /** A u_int16_t. */
  type Port = x: int | 0 <= x <= 65535

  /** inet_aton: the address a string spells, if any. It is not part of
      this model and is passed in as a parameter. */
  type Resolver = seq<char> -> Option<Addr>

  /** The globals conf_load fills in, and the line numbers of the
      "superfluous argument" warnings it has logged. */
  datatype Globals = Globals(
    tunDev: seq<char>,
    tunUs: Addr,
    tunThem: Addr,
    inRemote: Addr,
    divertPort: Port,
    superfluous: seq<nat>)

  /** Static storage before conf_load runs. */
  const Initial := Globals([], 0, 0, 0, DIVERT_PORT, [])

  datatype Handler = Remote | Dev | DivertPort

  /** One entry of the configopts table. */
  datatype ConfigOpt = ConfigOpt(name: CString, handler: Handler, nargs: nat)

  const ConfigOpts: seq<ConfigOpt> := [
    ConfigOpt("remote", Remote, 1),
    ConfigOpt("dev", Dev, 3),
    ConfigOpt("divert_port", DivertPort, 1)
  ]

  /** How many entries of argv a handler reads: conf_remote and
      conf_divert_port read argv[0], conf_dev reads argv[0] to argv[2]. */
  function Arity(h: Handler): nat
  {
    match h
    case Remote => 1
    case Dev => 3
    case DivertPort => 1
  }

  /** What a handler returns (0 or -1) and the globals it leaves. */
  datatype Reply = Reply(ok: bool, g: Globals)

  /** strncmp(dev, "tun", 3) == 0. */
  predicate HasTunPrefix(s: seq<char>)
  {
    |s| >= 3 && s[0] == 't' && s[1] == 'u' && s[2] == 'n'
  }

  /** inet_aton into a struct in_addr: written only when the string parses. */
  function Aton(aton: Resolver, s: seq<char>, old_: Addr): Addr
  {
    match aton(s)
    case Some(a) => a
    case None => old_
  }

  /** conf_remote. inet_aton reports failure with 0, never -1, so the
      handler never fails. */
  function SetRemote(args: seq<seq<char>>, g: Globals, aton: Resolver): (r: Reply)
    requires |args| == 1
    ensures r.ok
    ensures r.g == g.(inRemote := r.g.inRemote)
    ensures aton(args[0]).Some? ==> r.g.inRemote == aton(args[0]).value
    ensures aton(args[0]).None? ==> r.g == g
  {
    Reply(true, g.(inRemote := Aton(aton, args[0], g.inRemote)))
  }

  /** strlcpy(tun_dev, dev, IFNAMSIZ): at most IFNAMSIZ - 1 characters. */
  function Strlcpy(s: seq<char>, size: nat): (t: seq<char>)
    requires size > 0
    ensures |t| < size && t <= s
    ensures |s| < size ==> t == s
    ensures |s| >= size ==> t == s[..size - 1]
  {
    if |s| < size then s else s[..size - 1]
  }

  /** conf_dev: the device must be a tun interface; the name is truncated
      into tun_dev, then both addresses go through inet_aton. */
  function SetDev(args: seq<seq<char>>, g: Globals, aton: Resolver): (r: Reply)
    requires |args| == 3
    ensures r.ok <==> HasTunPrefix(args[0])
    ensures !r.ok ==> r.g == g
    ensures r.ok ==> HasTunPrefix(r.g.tunDev) && |r.g.tunDev| < IFNAMSIZ && r.g.tunDev <= args[0]
    ensures r.ok ==> r.g.tunDev == Strlcpy(args[0], IFNAMSIZ)
    ensures r.ok && aton(args[1]).Some? ==> r.g.tunUs == aton(args[1]).value
    ensures aton(args[1]).None? ==> r.g.tunUs == g.tunUs
    ensures r.ok && aton(args[2]).Some? ==> r.g.tunThem == aton(args[2]).value
    ensures aton(args[2]).None? ==> r.g.tunThem == g.tunThem
    ensures r.g.inRemote == g.inRemote && r.g.divertPort == g.divertPort
    ensures r.g.superfluous == g.superfluous
  {
    if !HasTunPrefix(args[0]) then Reply(false, g)
    else
      var dev := Strlcpy(args[0], IFNAMSIZ);
      var us := Aton(aton, args[1], g.tunUs);
      var them := Aton(aton, args[2], g.tunThem);
      Reply(true, g.(tunDev := dev, tunUs := us, tunThem := them))
  }

  /** conf_divert_port: divert_port takes strtonum's return value before
      errstr is looked at, so a refused argument leaves it 0. */
  function SetDivertPort(args: seq<seq<char>>, g: Globals): (r: Reply)
    requires |args| == 1
    ensures r.ok <==> Strtoll(args[0]).Some? && 0 <= Strtoll(args[0]).value <= USHRT_MAX
    ensures r.ok ==> r.g.divertPort == Strtoll(args[0]).value
    ensures !r.ok ==> r.g.divertPort == 0
    ensures r.g == g.(divertPort := r.g.divertPort)
  {
    var n := StrToNum(args[0], 0, USHRT_MAX);
    Reply(n.Num?, g.(divertPort := Returned(n)))
  }

  /** copts->func(argv). No handler touches the warnings, and only
      conf_divert_port touches divert_port. */
  function Call(h: Handler, args: seq<seq<char>>, g: Globals, aton: Resolver): (r: Reply)
    requires |args| == Arity(h)
    ensures r.g.superfluous == g.superfluous
    ensures h != DivertPort ==> r.g.divertPort == g.divertPort
    ensures h == Remote ==> r.ok
    ensures h == Dev ==> (r.ok <==> HasTunPrefix(args[0]))
  {
    match h
    case Remote => SetRemote(args, g, aton)
    case Dev => SetDev(args, g, aton)
    case DivertPort => SetDivertPort(args, g)
  }

  /** The outcome of the argument loop: the argv it filled, the cursor and
      the last word length, or the reason it returned -1. */
  datatype Collected =
    | Args(args: seq<seq<char>>, cp: nat, wordlen: nat)
    | TooFew(given: nat)
    | TooLong

  /** The `while (nargs)` loop of conf_load: n more words are taken from the
      cursor, each after skipping separators. */
  function Collect(s: CString, cp: nat, wordlen: nat, n: nat): (r: Collected)
    requires cp <= |s|
    ensures r.Args? ==> |r.args| == n && r.cp <= |s|
    ensures r.Args? && n > 0 ==> 0 < r.wordlen < ARGMAX
    decreases n
  {
    if n == 0 then Args([], cp, wordlen)
    else
      var b := cp + Strspn(s, cp);
      var w := Strcspn(s, b);
      if w == 0 then TooFew(0)
      else if w >= ARGMAX then TooLong
      else After([s[b..b + w]], Collect(s, b + w, w, n - 1))
  }

  /** The outcome of the loop once the words in argv have been taken. */
  function After(argv: seq<seq<char>>, r: Collected): Collected
  {
    match r
    case Args(args, cp, wordlen) => Args(argv + args, cp, wordlen)
    case TooFew(given) => TooFew(|argv| + given)
    case TooLong => TooLong
  }

  lemma AfterAfter(a: seq<seq<char>>, b: seq<seq<char>>, r: Collected)
    ensures After(a, After(b, r)) == After(a + b, r)
  {
    if r.Args? {
      assert a + (b + r.args) == a + b + r.args;
    }
  }

  /** Each of the first n words is shorter than ARGMAX. */
  predicate AllShort(ws: seq<seq<char>>, n: nat)
  {
    n == 0 || ws == [] || (|ws[0]| < ARGMAX && AllShort(ws[1..], n - 1))
  }

  lemma AllShortCons(word: seq<char>, rest: seq<seq<char>>, n: nat)
    requires n > 0
    ensures AllShort([word] + rest, n) <==> |word| < ARGMAX && AllShort(rest, n - 1)
  {
    assert ([word] + rest)[1..] == rest;
  }

  /** The words after a word w shorter than ARGMAX at b, and what Collect
      does with w taken. */
  lemma CollectStep(s: CString, cp: nat, wordlen: nat, n: nat, b: nat, w: nat)
    requires cp <= |s| && b == cp + Strspn(s, cp) && w == Strcspn(s, b) && 0 < w < ARGMAX && n > 0
    ensures Words(s, cp) == [s[b..b + w]] + Words(s, b + w)
    ensures AllShort(Words(s, cp), n) <==> AllShort(Words(s, b + w), n - 1)
    ensures Collect(s, cp, wordlen, n) == After([s[b..b + w]], Collect(s, b + w, w, n - 1))
  {
    WordsStep(s, cp);
    AllShortCons(s[b..b + w], Words(s, b + w), n);
  }

  /** The argument loop returns -1 at the first of the next n words that
      has ARGMAX characters or more. */
  lemma {:induction false} CollectTooLong(s: CString, cp: nat, wordlen: nat, n: nat)
    requires cp <= |s| && !AllShort(Words(s, cp), n)
    ensures Collect(s, cp, wordlen, n) == TooLong
    decreases n, 1
  {
    var b := cp + Strspn(s, cp);
    var w := Strcspn(s, b);
    if w == 0 {
      CollectNoWord(s, cp, wordlen, n);
    } else if w >= ARGMAX {
      CollectLongWord(s, cp, wordlen, n);
    } else {
      TooLongAfter(s, cp, wordlen, n, b, w);
    }
  }

  lemma {:induction false} TooLongAfter(s: CString, cp: nat, wordlen: nat, n: nat, b: nat, w: nat)
    requires cp <= |s| && b == cp + Strspn(s, cp) && w == Strcspn(s, b) && 0 < w < ARGMAX
    requires !AllShort(Words(s, cp), n)
    ensures Collect(s, cp, wordlen, n) == TooLong
    decreases n, 0
  {
    CollectStep(s, cp, wordlen, n, b, w);
    CollectTooLong(s, b + w, w, n - 1);
  }

  /** The argument loop returns -1, having taken every word that was left,
      when fewer than n words remain. */
  lemma {:induction false} CollectTooFew(s: CString, cp: nat, wordlen: nat, n: nat)
    requires cp <= |s| && AllShort(Words(s, cp), n) && |Words(s, cp)| < n
    ensures Collect(s, cp, wordlen, n) == TooFew(|Words(s, cp)|)
    decreases n, 1
  {
    var b := cp + Strspn(s, cp);
    var w := Strcspn(s, b);
    if w == 0 {
      CollectNoWord(s, cp, wordlen, n);
    } else if w >= ARGMAX {
      CollectLongWord(s, cp, wordlen, n);
    } else {
      TooFewAfter(s, cp, wordlen, n, b, w);
    }
  }

  lemma {:induction false} TooFewAfter(s: CString, cp: nat, wordlen: nat, n: nat, b: nat, w: nat)
    requires cp <= |s| && b == cp + Strspn(s, cp) && w == Strcspn(s, b) && 0 < w < ARGMAX
    requires AllShort(Words(s, cp), n) && |Words(s, cp)| < n
    ensures Collect(s, cp, wordlen, n) == TooFew(|Words(s, cp)|)
    decreases n, 0
  {
    CollectStep(s, cp, wordlen, n, b, w);
    CollectTooFew(s, b + w, w, n - 1);
  }

  /** Otherwise argv holds exactly the next n words, and only the words
      after them are left on the line. */
  lemma {:induction false} CollectWords(s: CString, cp: nat, wordlen: nat, n: nat)
    requires cp <= |s| && AllShort(Words(s, cp), n) && |Words(s, cp)| >= n
    ensures var r := Collect(s, cp, wordlen, n);
      r.Args? && r.args == Words(s, cp)[..n] && Words(s, r.cp) == Words(s, cp)[n..]
    decreases n, 1
  {
    if n > 0 {
      var b := cp + Strspn(s, cp);
      var w := Strcspn(s, b);
      if w == 0 {
        CollectNoWord(s, cp, wordlen, n);
      } else if w >= ARGMAX {
        CollectLongWord(s, cp, wordlen, n);
      } else {
        WordsAfter(s, cp, wordlen, n, b, w);
      }
    }
  }

  lemma {:induction false} WordsAfter(s: CString, cp: nat, wordlen: nat, n: nat, b: nat, w: nat)
    requires cp <= |s| && b == cp + Strspn(s, cp) && w == Strcspn(s, b) && 0 < w < ARGMAX
    requires n > 0 && AllShort(Words(s, cp), n) && |Words(s, cp)| >= n
    ensures var r := Collect(s, cp, wordlen, n);
      r.Args? && r.args == Words(s, cp)[..n] && Words(s, r.cp) == Words(s, cp)[n..]
    decreases n, 0
  {
    CollectStep(s, cp, wordlen, n, b, w);
    CollectWords(s, b + w, w, n - 1);
    WordsSplit(s[b..b + w], Words(s, b + w), n);
  }

  /** Taking n words from [word] + rest is taking word, then n - 1 words of rest. */
  lemma WordsSplit(word: seq<char>, rest: seq<seq<char>>, n: nat)
    requires 0 < n <= |rest| + 1
    ensures ([word] + rest)[..n] == [word] + rest[..n - 1]
    ensures ([word] + rest)[n..] == rest[n - 1..]
  {
  }

  lemma CollectNoWord(s: CString, cp: nat, wordlen: nat, n: nat)
    requires cp <= |s| && Strcspn(s, cp + Strspn(s, cp)) == 0
    ensures Words(s, cp) == [] && AllShort(Words(s, cp), n)
    ensures n > 0 ==> Collect(s, cp, wordlen, n) == TooFew(0)
  {
  }

  lemma CollectLongWord(s: CString, cp: nat, wordlen: nat, n: nat)
    requires cp <= |s| && Strcspn(s, cp + Strspn(s, cp)) >= ARGMAX
    ensures n > 0 ==> !AllShort(Words(s, cp), n) && Collect(s, cp, wordlen, n) == TooLong
  {
    WordsStep(s, cp);
    assert |Words(s, cp)[0]| >= ARGMAX;
  }

  /** Why a line made conf_load return -1. */
  datatype Reason = NoOption | MissingArgs(given: nat) | ArgTooLong | HandlerFailed

  /** Done: the line was consumed. Overrun: the cursor was moved past the
      line's terminator, after which the C program reads memory it does not
      own; the model does not follow it further. */
  datatype LineStatus = Done | Failed(reason: Reason) | Overrun

  datatype LineOutcome = LineOutcome(status: LineStatus, g: Globals)

  /** The `for (copts = configopts; copts->name; copts++)` loop as written:
      it has no break, so after a dispatch it goes on comparing the later
      entries against the text after the arguments, with the length of the
      last argument. */
  function ScanOpts(s: CString, lineno: nat, j: nat, cp: nat, wordlen: nat, g: Globals, aton: Resolver): (r: LineOutcome)
    requires j <= |ConfigOpts| && cp <= |s|
    ensures g.superfluous <= r.g.superfluous
    decreases |ConfigOpts| - j
  {
    if j == |ConfigOpts| then LineOutcome(Done, g)
    else if !StrncaseEq(s, cp, ConfigOpts[j].name, 0, wordlen) then
      ScanOpts(s, lineno, j + 1, cp, wordlen, g, aton)
    else if cp + wordlen > |s| then LineOutcome(Overrun, g)
    else
      match Matched(s, lineno, j, cp, wordlen, g, aton)
      case Stop(out) => out
      case Next(cp3, wl, g2) => ScanOpts(s, lineno, j + 1, cp3, wl, g2, aton)
  }

  /** The option loop passes over an entry that does not match. */
  lemma ScanNoMatch(s: CString, lineno: nat, j: nat, cp: nat, wordlen: nat, g: Globals, aton: Resolver)
    requires j < |ConfigOpts| && cp <= |s| && !StrncaseEq(s, cp, ConfigOpts[j].name, 0, wordlen)
    ensures ScanOpts(s, lineno, j, cp, wordlen, g, aton) == ScanOpts(s, lineno, j + 1, cp, wordlen, g, aton)
  {
  }

  /** At an entry that matches with the cursor in the line, the option loop
      stops or goes on as the body of the loop says. */
  lemma ScanMatch(s: CString, lineno: nat, j: nat, cp: nat, wordlen: nat, g: Globals, aton: Resolver)
    requires j < |ConfigOpts| && cp + wordlen <= |s| && StrncaseEq(s, cp, ConfigOpts[j].name, 0, wordlen)
    ensures var m := Matched(s, lineno, j, cp, wordlen, g, aton);
      (m.Stop? ==> ScanOpts(s, lineno, j, cp, wordlen, g, aton) == m.out) &&
      (m.Next? ==> ScanOpts(s, lineno, j, cp, wordlen, g, aton) == ScanOpts(s, lineno, j + 1, m.cp, m.wordlen, m.g, aton))
  {
  }

  /** What the body of the option loop does once entry j has matched: the
      line ends there (with -1), or the loop goes on with a new cursor, word
      length and globals. */
  datatype Step = Stop(out: LineOutcome) | Next(cp: nat, wordlen: nat, g: Globals)

  /** The globals after the "superfluous argument" warning, when it is logged. */
  function Warned(g: Globals, lineno: nat, warn: bool): Globals
  {
    if warn then g.(superfluous := g.superfluous + [lineno]) else g
  }

  /** Entry j matched: collect its arguments, warn if text is left after
      them, call its handler. Every way out of the line is a -1 with a
      reason other than a missing option. */
  function Matched(s: CString, lineno: nat, j: nat, cp: nat, wordlen: nat, g: Globals, aton: Resolver): (r: Step)
    requires j < |ConfigOpts| && cp + wordlen <= |s|
    ensures r.Next? ==> r.cp <= |s| && r.wordlen > 0
    ensures r.Stop? ==> r.out.status.Failed? && r.out.status.reason != NoOption
  {
    var opt := ConfigOpts[j];
    match Collect(s, cp + wordlen, wordlen, opt.nargs)
    case TooFew(given) => Stop(LineOutcome(Failed(MissingArgs(given)), g))
    case TooLong => Stop(LineOutcome(Failed(ArgTooLong), g))
    case Args(args, cp2, wl) =>
      var cp3 := cp2 + Strspn(s, cp2);
      var rep := Call(opt.handler, args, Warned(g, lineno, cp3 < |s|), aton);
      if !rep.ok then Stop(LineOutcome(Failed(HandlerFailed), rep.g))
      else Next(cp3, wl, rep.g)
  }

  /** One pass of the line loop of conf_load over a line of the file. */
  function ParseLine(s: CString, lineno: nat, g: Globals, aton: Resolver): (r: LineOutcome)
    ensures g.superfluous <= r.g.superfluous
  {
    var cp := Strspn(s, 0);
    if cp == |s| then LineOutcome(Done, g)
    else
      var wordlen := Strcspn(s, cp);
      if wordlen == 0 then LineOutcome(Failed(NoOption), g)
      else ScanOpts(s, lineno, 0, cp, wordlen, g, aton)
  }

  /** How conf_load ends: 0; -1 at a line; behaviour undefined at a line;
      or fatalx because no dev or no remote was given. */
  datatype LoadStatus = Loaded | LineFailed(lineno: nat) | Undefined(lineno: nat) | NoDev | NoRemote

  datatype LoadOutcome = LoadOutcome(status: LoadStatus, g: Globals)

  /** conf_load over the lines from index i on (line numbers count from 1). */
  function LoadFrom(lines: seq<CString>, i: nat, g: Globals, aton: Resolver): (r: LoadOutcome)
    requires i <= |lines|
    ensures r.status == Loaded ==> |r.g.tunDev| > 0 && r.g.inRemote != 0
    ensures g.superfluous <= r.g.superfluous
    decreases |lines| - i
  {
    if i == |lines| then
      if |g.tunDev| == 0 then LoadOutcome(NoDev, g)
      else if g.inRemote == 0 then LoadOutcome(NoRemote, g)
      else LoadOutcome(Loaded, g)
    else
      var o := ParseLine(lines[i], i + 1, g, aton);
      match o.status
      case Done => LoadFrom(lines, i + 1, o.g, aton)
      case Failed(_) => LoadOutcome(LineFailed(i + 1), o.g)
      case Overrun => LoadOutcome(Undefined(i + 1), o.g)
  }
}
